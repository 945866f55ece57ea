/** The Redis-backed agent registry (pkg/registry/redis.go): one record per agent beside the set of all
    identifiers and the sets that index them by type and by capability. */
module Registry {
  import opened Wrappers

  datatype AgentState = Starting | Running | Stopping | Stopped | Failed | Draining

  datatype AgentInfo = AgentInfo(id: string, agentType: string, capabilities: seq<string>, state: AgentState,
                                 load: int, lastSeen: int)

  type Index = map<string, set<string>>

  datatype Store = Store(agents: map<string, AgentInfo>, all: set<string>, byType: Index, byCapability: Index)

  const EMPTY := Store(map[], {}, map[], map[])

  // ---- Sets in the store ----

  function Members(index: Index, key: string): set<string> {
    if key in index then index[key] else {}
  }

  function SAdd(index: Index, key: string, id: string): Index {
    index[key := Members(index, key) + {id}]
  }

  /** A set that becomes empty disappears. */
  function SRem(index: Index, key: string, id: string): Index {
    var left := Members(index, key) - {id};
    if left == {} then index - {key} else index[key := left]
  }

  function AddAll(index: Index, keys: seq<string>, id: string): Index {
    if keys == [] then index else SAdd(AddAll(index, keys[..|keys| - 1], id), keys[|keys| - 1], id)
  }

  function RemoveAll(index: Index, keys: seq<string>, id: string): Index {
    if keys == [] then index else SRem(RemoveAll(index, keys[..|keys| - 1], id), keys[|keys| - 1], id)
  }

  lemma {:induction false} AddAllMembers(index: Index, keys: seq<string>, id: string, key: string)
    ensures Members(AddAll(index, keys, id), key) == Members(index, key) + if key in keys then {id} else {}
  {
    if keys != [] {
      AddAllMembers(index, keys[..|keys| - 1], id, key);
      assert keys == keys[..|keys| - 1] + [keys[|keys| - 1]];
    }
  }

  lemma {:induction false} RemoveAllMembers(index: Index, keys: seq<string>, id: string, key: string)
    ensures Members(RemoveAll(index, keys, id), key) == Members(index, key) - if key in keys then {id} else {}
  {
    if keys != [] {
      RemoveAllMembers(index, keys[..|keys| - 1], id, key);
      assert keys == keys[..|keys| - 1] + [keys[|keys| - 1]];
    }
  }

  // ---- Operations on the store ----

  function Enter(st: Store, a: AgentInfo): Store {
    Store(st.agents[a.id := a], st.all + {a.id}, SAdd(st.byType, a.agentType, a.id),
          AddAll(st.byCapability, a.capabilities, a.id))
  }

  /** Removes the agent under the type and the capabilities of the record that was read. */
  function Leave(st: Store, id: string, read: AgentInfo): Store {
    Store(st.agents - {id}, st.all - {id}, SRem(st.byType, read.agentType, id),
          RemoveAll(st.byCapability, read.capabilities, id))
  }

  /** Writes a record back without touching any set. */
  function Write(st: Store, id: string, a: AgentInfo): Store {
    st.(agents := st.agents[id := a])
  }

  /** What a status, load or heartbeat update changes in a record. */
  datatype Update = StatusTo(state: AgentState, now: int) | LoadTo(load: int, now: int) | Seen(now: int)

  function Amend(a: AgentInfo, u: Update): AgentInfo {
    match u
    case StatusTo(state, now) => a.(state := state, lastSeen := now)
    case LoadTo(load, now) => a.(load := load, lastSeen := now)
    case Seen(now) => a.(lastSeen := now)
  }

  datatype Op = Register(agent: AgentInfo) | Deregister(id: string) | Touch(id: string, update: Update)

  function Step(st: Store, op: Op): Store {
    match op
    case Register(a) => Enter(st, a)
    case Deregister(id) => if id in st.agents then Leave(st, id, st.agents[id]) else st
    case Touch(id, u) => if id in st.agents then Write(st, id, Amend(st.agents[id], u)) else st
  }

  // ---- Queries ----

  /** The identifiers in every one of the capability sets. */
  function SInter(index: Index, keys: seq<string>): set<string>
    requires keys != []
  {
    set id | id in Members(index, keys[0]) && forall k | k in keys :: id in Members(index, k)
  }

  function Records(st: Store, ids: set<string>): set<AgentInfo> {
    set id | id in ids && id in st.agents :: st.agents[id]
  }

  function Listed(st: Store): set<AgentInfo> {
    Records(st, st.all)
  }

  function Elements(s: seq<AgentInfo>): set<AgentInfo> {
    set a | a in s
  }

  /** The list holds the record of each of the identifiers that has one, once. */
  predicate Lists(st: Store, ids: set<string>, listed: seq<AgentInfo>) {
    Elements(listed) == Records(st, ids) && |listed| == |ids * st.agents.Keys|
  }

  function RunningOf(agents: set<AgentInfo>): set<AgentInfo> {
    set a | a in agents && a.state == Running
  }

  function Found(st: Store, capabilities: seq<string>): set<AgentInfo> {
    if capabilities == [] then Listed(st) else RunningOf(Records(st, SInter(st.byCapability, capabilities)))
  }

  /** The plain scan that the capability index is to agree with. */
  function Scan(st: Store, capabilities: seq<string>): set<AgentInfo> {
    set a | a in Listed(st) && a.state == Running && forall c | c in capabilities :: c in a.capabilities
  }

  function OfType(st: Store, agentType: string): set<AgentInfo> {
    Records(st, Members(st.byType, agentType))
  }

  function ScanType(st: Store, agentType: string): set<AgentInfo> {
    set a | a in Listed(st) && a.agentType == agentType
  }

  // ---- Consistency of the sets with the records ----

  ghost predicate Indexed(st: Store, id: string, a: AgentInfo) {
    && (forall t :: id in Members(st.byType, t) <==> t == a.agentType)
    && (forall c :: id in Members(st.byCapability, c) <==> c in a.capabilities)
  }

  ghost predicate Unindexed(st: Store, id: string) {
    && (forall t :: id !in Members(st.byType, t))
    && (forall c :: id !in Members(st.byCapability, c))
  }

  /** The set of all identifiers holds exactly the recorded ones, and each index exactly those whose
      record says so. */
  ghost predicate Consistent(st: Store) {
    && st.all == st.agents.Keys
    && (forall id | id in st.agents :: st.agents[id].id == id && Indexed(st, id, st.agents[id]))
    && (forall id | id !in st.agents :: Unindexed(st, id))
  }

  /** Registering a live identifier keeps its type and drops none of its capabilities. */
  predicate Extends(st: Store, a: AgentInfo) {
    a.id in st.agents ==>
      && st.agents[a.id].agentType == a.agentType
      && forall c | c in st.agents[a.id].capabilities :: c in a.capabilities
  }

  lemma EnterMembers(st: Store, a: AgentInfo)
    ensures forall t :: Members(Enter(st, a).byType, t) == Members(st.byType, t) + if t == a.agentType then {a.id} else {}
    ensures forall c :: Members(Enter(st, a).byCapability, c)
                        == Members(st.byCapability, c) + if c in a.capabilities then {a.id} else {}
  {
    forall c ensures Members(Enter(st, a).byCapability, c)
                     == Members(st.byCapability, c) + if c in a.capabilities then {a.id} else {}
    {
      AddAllMembers(st.byCapability, a.capabilities, a.id, c);
    }
  }

  lemma LeaveMembers(st: Store, id: string, read: AgentInfo)
    ensures forall t :: Members(Leave(st, id, read).byType, t)
                        == Members(st.byType, t) - if t == read.agentType then {id} else {}
    ensures forall c :: Members(Leave(st, id, read).byCapability, c)
                        == Members(st.byCapability, c) - if c in read.capabilities then {id} else {}
  {
    forall c ensures Members(Leave(st, id, read).byCapability, c)
                     == Members(st.byCapability, c) - if c in read.capabilities then {id} else {}
    {
      RemoveAllMembers(st.byCapability, read.capabilities, id, c);
    }
  }

  lemma EnterIndexes(st: Store, a: AgentInfo, id: string)
    requires Consistent(st) && Extends(st, a)
    ensures var after := Enter(st, a);
            if id in after.agents then Indexed(after, id, after.agents[id]) else Unindexed(after, id)
  {
    EnterMembers(st, a);
    var after := Enter(st, a);
    assert after.agents == st.agents[a.id := a];
    hide AddAll; hide SAdd; hide Members; hide Enter;
    if id in st.agents {
      assert Indexed(st, id, st.agents[id]);
    } else {
      assert Unindexed(st, id);
    }
  }

  lemma RegisterKeeps(st: Store, a: AgentInfo)
    requires Consistent(st) && Extends(st, a)
    ensures Consistent(Enter(st, a))
  {
    var after := Enter(st, a);
    assert after.agents == st.agents[a.id := a] && after.all == st.all + {a.id};
    hide Enter; hide Indexed; hide Unindexed; hide Extends;
    forall id ensures if id in after.agents then Indexed(after, id, after.agents[id]) else Unindexed(after, id) {
      EnterIndexes(st, a, id);
    }
  }

  /** Registration keeps the indexes exact if and only if the identifier is new or is registered again
      with the same type and no fewer capabilities. */
  lemma RegisterKeepsIff(st: Store, a: AgentInfo)
    requires Consistent(st)
    ensures Consistent(Enter(st, a)) <==> Extends(st, a)
  {
    if Extends(st, a) {
      RegisterKeeps(st, a);
    } else {
      EnterMembers(st, a);
      var after := Enter(st, a);
      assert after.agents[a.id] == a;
      hide AddAll; hide SAdd; hide Members; hide Enter;
      assert Indexed(st, a.id, st.agents[a.id]);
      var former := st.agents[a.id];
      assert a.id in Members(after.byType, former.agentType);
      assert forall c | c in former.capabilities :: a.id in Members(after.byCapability, c);
      assert !Indexed(after, a.id, a);
    }
  }

  lemma DeregisterKeeps(st: Store, id: string)
    requires Consistent(st) && id in st.agents
    ensures Consistent(Leave(st, id, st.agents[id]))
  {
    LeaveMembers(st, id, st.agents[id]);
    var after := Leave(st, id, st.agents[id]);
    hide RemoveAll; hide SRem; hide Members;
    assert after.agents == st.agents - {id} && after.all == st.all - {id};
    assert after.agents.Keys == st.agents.Keys - {id};
    hide Leave;
    assert Indexed(st, id, st.agents[id]);
    forall other | other in after.agents ensures Indexed(after, other, after.agents[other]) {
      assert Indexed(st, other, st.agents[other]);
    }
    forall other | other !in after.agents ensures Unindexed(after, other) {
      assert other != id ==> Unindexed(st, other);
    }
  }

  lemma TouchKeeps(st: Store, id: string, u: Update)
    requires Consistent(st) && id in st.agents
    ensures Consistent(Write(st, id, Amend(st.agents[id], u)))
  {
    var after := Write(st, id, Amend(st.agents[id], u));
    hide Members;
    forall other | other in after.agents ensures Indexed(after, other, after.agents[other]) {
      assert Indexed(st, other, st.agents[other]);
    }
    forall other | other !in after.agents ensures Unindexed(after, other) {
      assert Unindexed(st, other);
    }
  }

  // ---- Runs of atomic operations ----

  predicate Legal(st: Store, op: Op) {
    op.Register? ==> Extends(st, op.agent)
  }

  predicate IsRun(st: Store, ops: seq<Op>)
    decreases |ops|
  {
    ops == [] || (Legal(st, ops[0]) && IsRun(Step(st, ops[0]), ops[1..]))
  }

  function Run(st: Store, ops: seq<Op>): Store
    decreases |ops|
  {
    if ops == [] then st else Run(Step(st, ops[0]), ops[1..])
  }

  lemma StepKeeps(st: Store, op: Op)
    requires Consistent(st) && Legal(st, op)
    ensures Consistent(Step(st, op))
  {
    hide Consistent; hide Enter; hide Leave; hide Write; hide Extends;
    match op
    case Register(a) => RegisterKeepsIff(st, a);
    case Deregister(id) => if id in st.agents { DeregisterKeeps(st, id); }
    case Touch(id, u) => if id in st.agents { TouchKeeps(st, id, u); }
  }

  lemma {:induction false} RunKeeps(st: Store, ops: seq<Op>)
    requires Consistent(st) && IsRun(st, ops)
    ensures Consistent(Run(st, ops))
    decreases |ops|
  {
    hide Consistent; hide Step; hide Legal;
    if ops != [] {
      StepKeeps(st, ops[0]);
      RunKeeps(Step(st, ops[0]), ops[1..]);
    }
  }

  /** The indexed query equals the scan wherever the capability sets hold exactly the listed
      identifiers whose records have the capability. */
  lemma FoundIsScan(st: Store, capabilities: seq<string>)
    requires capabilities != []
    requires st.all <= st.agents.Keys
    requires forall c, id :: id in Members(st.byCapability, c) <==>
                             id in st.all && id in st.agents && c in st.agents[id].capabilities
    ensures Found(st, capabilities) == Scan(st, capabilities)
  {
    hide Members;
    var ids := SInter(st.byCapability, capabilities);
    assert forall id | id in ids :: capabilities[0] in capabilities && id in st.all && id in st.agents;
    forall id | id in st.all && forall c | c in capabilities :: c in st.agents[id].capabilities ensures id in ids {
      assert capabilities[0] in st.agents[id].capabilities;
    }
    forall a | a in Found(st, capabilities) ensures a in Scan(st, capabilities) {
      var id :| id in ids && a == st.agents[id];
    }
    forall a | a in Scan(st, capabilities) ensures a in Found(st, capabilities) {
      var id :| id in st.all && a == st.agents[id];
      assert id in ids;
    }
  }

  /** The listing by type equals the scan wherever the type sets hold exactly the listed identifiers
      whose records have the type. */
  lemma OfTypeIsScan(st: Store, agentType: string)
    requires st.all <= st.agents.Keys
    requires forall id :: id in Members(st.byType, agentType) <==>
                          id in st.all && id in st.agents && st.agents[id].agentType == agentType
    ensures OfType(st, agentType) == ScanType(st, agentType)
  {
    hide Members;
    forall a | a in OfType(st, agentType) ensures a in ScanType(st, agentType) {
      var id :| id in Members(st.byType, agentType) && id in st.agents && a == st.agents[id];
    }
    forall a | a in ScanType(st, agentType) ensures a in OfType(st, agentType) {
      var id :| id in st.all && id in st.agents && a == st.agents[id];
    }
  }

  /** In every state reached by atomic operations, where a live identifier is registered again only
      with its type and no fewer capabilities, the query by capabilities returns exactly the running
      agents of the full listing whose records hold them all, and the listing by type those of the type. */
  lemma IndexAgreesWithScan(ops: seq<Op>, capabilities: seq<string>, agentType: string)
    requires IsRun(EMPTY, ops)
    ensures var st := Run(EMPTY, ops);
            && st.all == st.agents.Keys
            && Found(st, capabilities) == (if capabilities == [] then Listed(st) else Scan(st, capabilities))
            && OfType(st, agentType) == ScanType(st, agentType)
  {
    RunKeeps(EMPTY, ops);
    var st := Run(EMPTY, ops);
    hide IsRun; hide Run; hide Members; hide Found; hide Scan; hide OfType; hide ScanType;
    forall id
      ensures id in Members(st.byType, agentType) <==>
              id in st.all && id in st.agents && st.agents[id].agentType == agentType
    {
      if id in st.agents {
        assert Indexed(st, id, st.agents[id]);
      } else {
        assert Unindexed(st, id);
      }
    }
    OfTypeIsScan(st, agentType);
    forall c, id
      ensures id in Members(st.byCapability, c) <==> id in st.all && id in st.agents && c in st.agents[id].capabilities
    {
      if id in st.agents {
        assert Indexed(st, id, st.agents[id]);
      } else {
        assert Unindexed(st, id);
      }
    }
    if capabilities != [] {
      FoundIsScan(st, capabilities);
    } else {
      FoundNothingAsked(st);
    }
  }

  lemma FoundNothingAsked(st: Store)
    ensures Found(st, []) == Listed(st)
  {
  }

  /** A live identifier registered again without one of its capabilities is still found under it. */
  lemma DroppedCapabilityStillFound(st: Store, a: AgentInfo, c: string)
    requires Consistent(st) && a.id in st.agents && a.state == Running
    requires c in st.agents[a.id].capabilities && c !in a.capabilities
    ensures a in Found(Enter(st, a), [c]) && a !in Scan(Enter(st, a), [c])
  {
    EnterMembers(st, a);
    assert Indexed(st, a.id, st.agents[a.id]);
    assert a.id in SInter(Enter(st, a).byCapability, [c]);
    assert Enter(st, a).agents[a.id] == a;
    assert c in [c];
  }

  /** Deregistering an agent that has just been registered under a new identifier restores every set. */
  lemma DeregisterUndoesRegister(st: Store, a: AgentInfo)
    requires Consistent(st) && a.id !in st.agents
    ensures var after := Step(Step(st, Register(a)), Deregister(a.id));
            && after.agents == st.agents && after.all == st.all
            && (forall t :: Members(after.byType, t) == Members(st.byType, t))
            && (forall c :: Members(after.byCapability, c) == Members(st.byCapability, c))
  {
    EnterMembers(st, a);
    LeaveMembers(Enter(st, a), a.id, a);
    assert Unindexed(st, a.id);
    hide AddAll; hide RemoveAll; hide SAdd; hide SRem; hide Members;
    assert Enter(st, a).agents - {a.id} == st.agents;
  }

  // ---- Records as functions of the history ----

  /** The registration that is in force for the identifier: its last one, unless it was deregistered
      since. */
  function RegisteredAs(ops: seq<Op>, id: string): Option<AgentInfo> {
    if ops == [] then None else
    var front, last := ops[..|ops| - 1], ops[|ops| - 1];
    if last.Register? && last.agent.id == id then Some(last.agent)
    else if last.Deregister? && last.id == id then None
    else RegisteredAs(front, id)
  }

  /** The state given by the last registration or status update of the identifier. */
  function StateGiven(ops: seq<Op>, id: string): Option<AgentState> {
    if ops == [] then None else
    var front, last := ops[..|ops| - 1], ops[|ops| - 1];
    if last.Register? && last.agent.id == id then Some(last.agent.state)
    else if last.Touch? && last.id == id && last.update.StatusTo? then Some(last.update.state)
    else StateGiven(front, id)
  }

  /** The load given by the last registration or load update of the identifier. */
  function LoadGiven(ops: seq<Op>, id: string): Option<int> {
    if ops == [] then None else
    var front, last := ops[..|ops| - 1], ops[|ops| - 1];
    if last.Register? && last.agent.id == id then Some(last.agent.load)
    else if last.Touch? && last.id == id && last.update.LoadTo? then Some(last.update.load)
    else LoadGiven(front, id)
  }

  /** The time of the last registration or update of the identifier. */
  function SeenAt(ops: seq<Op>, id: string): Option<int> {
    if ops == [] then None else
    var front, last := ops[..|ops| - 1], ops[|ops| - 1];
    if last.Register? && last.agent.id == id then Some(last.agent.lastSeen)
    else if last.Touch? && last.id == id then Some(last.update.now)
    else SeenAt(front, id)
  }

  lemma {:induction false} RunSnoc(st: Store, ops: seq<Op>, op: Op)
    ensures Run(st, ops + [op]) == Step(Run(st, ops), op)
    decreases |ops|
  {
    hide Step;
    if ops == [] {
      assert [] + [op] == [op] && [op][1..] == [];
      assert Run(Step(st, op), []) == Step(st, op);
    } else {
      assert (ops + [op])[1..] == ops[1..] + [op];
      RunSnoc(Step(st, ops[0]), ops[1..], op);
    }
  }

  lemma StepRecord(st: Store, op: Op, id: string)
    ensures var after := Step(st, op).agents;
            match op
            case Register(a) =>
              if a.id == id then id in after && after[id] == a else SameRecord(st.agents, after, id)
            case Deregister(other) =>
              if other == id then id !in after else SameRecord(st.agents, after, id)
            case Touch(other, u) =>
              if other != id || id !in st.agents then SameRecord(st.agents, after, id)
              else
                && id in after
                && after[id].(state := st.agents[id].state, load := st.agents[id].load, lastSeen := st.agents[id].lastSeen)
                   == st.agents[id]
                && after[id].state == (if u.StatusTo? then u.state else st.agents[id].state)
                && after[id].load == (if u.LoadTo? then u.load else st.agents[id].load)
                && after[id].lastSeen == u.now
  {
    hide AddAll; hide RemoveAll; hide SAdd; hide SRem;
  }

  predicate SameRecord(before: map<string, AgentInfo>, after: map<string, AgentInfo>, id: string) {
    (id in after <==> id in before) && (id in before ==> after[id] == before[id])
  }

  /** An identifier has a record exactly while a registration of it is in force, and the record is that
      registration with the last given state, the last given load and the time of the last operation on
      it. Operations on other identifiers leave it alone. */
  lemma {:induction false} RecordIsHistory(ops: seq<Op>, id: string)
    ensures var agents := Run(EMPTY, ops).agents;
            && (id in agents <==> RegisteredAs(ops, id).Some?)
            && (id in agents ==>
                  && agents[id].id == id
                  && agents[id].agentType == RegisteredAs(ops, id).value.agentType
                  && agents[id].capabilities == RegisteredAs(ops, id).value.capabilities
                  && StateGiven(ops, id) == Some(agents[id].state)
                  && LoadGiven(ops, id) == Some(agents[id].load)
                  && SeenAt(ops, id) == Some(agents[id].lastSeen))
  {
    if ops != [] {
      var front, op := ops[..|ops| - 1], ops[|ops| - 1];
      RecordIsHistory(front, id);
      RunSnoc(EMPTY, front, op);
      assert ops == front + [op];
      StepRecord(Run(EMPTY, front), op, id);
      hide Run; hide Step;
    }
  }

  /** The identifiers that a query by capabilities answers with. */
  function FoundIds(st: Store, capabilities: seq<string>): set<string> {
    if capabilities == [] then set id | id in st.all && id in st.agents
    else set id | id in SInter(st.byCapability, capabilities) && id in st.agents && st.agents[id].state == Running
  }

  lemma FoundIdsFound(st: Store, capabilities: seq<string>)
    ensures Found(st, capabilities) == Records(st, FoundIds(st, capabilities))
  {
    hide SInter;
    forall a | a in Found(st, capabilities) ensures a in Records(st, FoundIds(st, capabilities)) {
      if capabilities == [] {
        var id :| id in st.all && id in st.agents && st.agents[id] == a;
        assert id in FoundIds(st, capabilities);
      } else {
        var id :| id in SInter(st.byCapability, capabilities) && id in st.agents && st.agents[id] == a;
        assert id in FoundIds(st, capabilities);
      }
    }
  }

  /** A heartbeat or a load update changes no answer, and a status update adds or removes at most that
      agent, in any query. */
  lemma UpdatesLeaveAnswers(st: Store, id: string, u: Update, capabilities: seq<string>)
    ensures var after := Step(st, Touch(id, u));
            && (!u.StatusTo? ==> FoundIds(after, capabilities) == FoundIds(st, capabilities))
            && FoundIds(after, capabilities) - {id} == FoundIds(st, capabilities) - {id}
            && (u.StatusTo? && capabilities != [] && id in FoundIds(after, capabilities) ==> u.state == Running)
  {
    hide SInter;
  }

  // ---- Interleaved operations: each reads a record in one step and writes in a later one ----

  datatype Begun = Updating(id: string, read: AgentInfo, update: Update) | Leaving(id: string, read: AgentInfo)

  datatype System = System(store: Store, begun: seq<Begun>)

  datatype Event =
    | Registered(agent: AgentInfo)
    | BeginUpdate(id: string, update: Update)
    | BeginLeave(id: string)
    /** The `k`-th operation that has begun writes. */
    | Finish(k: nat)

  function Next(s: System, e: Event): System {
    match e
    case Registered(a) => s.(store := Enter(s.store, a))
    case BeginUpdate(id, u) =>
      if id in s.store.agents then s.(begun := s.begun + [Updating(id, s.store.agents[id], u)]) else s
    case BeginLeave(id) =>
      if id in s.store.agents then s.(begun := s.begun + [Leaving(id, s.store.agents[id])]) else s
    case Finish(k) =>
      if k >= |s.begun| then s else
      var rest := s.begun[..k] + s.begun[k + 1..];
      match s.begun[k] {
        case Updating(id, read, u) => System(Write(s.store, id, Amend(read, u)), rest)
        case Leaving(id, read) => System(Leave(s.store, id, read), rest)
      }
  }

  function After(s: System, events: seq<Event>): System
    decreases |events|
  {
    if events == [] then s else After(Next(s, events[0]), events[1..])
  }

  datatype Profile = Profile(agentType: string, capabilities: set<string>)

  function ProfileOf(a: AgentInfo): Profile {
    Profile(a.agentType, set c | c in a.capabilities)
  }

  /** Each identifier is only ever registered with its own type and capabilities. */
  predicate Faithful(events: seq<Event>, profiles: string -> Profile) {
    forall i | 0 <= i < |events| && events[i].Registered? :: ProfileOf(events[i].agent) == profiles(events[i].agent.id)
  }

  predicate Fits(a: AgentInfo, id: string, profiles: string -> Profile) {
    a.id == id && ProfileOf(a) == profiles(id)
  }

  /** Every listed identifier has a record, all records fit, and the capability and type sets hold
      exactly the listed identifiers of that profile. */
  ghost predicate Coherent(s: System, profiles: string -> Profile) {
    && s.store.all <= s.store.agents.Keys
    && (forall id | id in s.store.agents :: Fits(s.store.agents[id], id, profiles))
    && (forall i | 0 <= i < |s.begun| :: Fits(s.begun[i].read, s.begun[i].id, profiles))
    && (forall c, id :: id in Members(s.store.byCapability, c) <==> id in s.store.all && c in profiles(id).capabilities)
    && (forall t, id :: id in Members(s.store.byType, t) <==> id in s.store.all && t == profiles(id).agentType)
  }

  lemma RegisteredCoherent(s: System, a: AgentInfo, profiles: string -> Profile)
    requires Coherent(s, profiles) && ProfileOf(a) == profiles(a.id)
    ensures Coherent(Next(s, Registered(a)), profiles)
  {
    EnterMembers(s.store, a);
    assert forall c :: c in a.capabilities <==> c in ProfileOf(a).capabilities;
    assert ProfileOf(a).agentType == a.agentType;
    hide Members; hide AddAll; hide SAdd; hide ProfileOf;
  }

  lemma FinishCoherent(s: System, k: nat, profiles: string -> Profile)
    requires Coherent(s, profiles)
    ensures Coherent(Next(s, Finish(k)), profiles)
  {
    if k < |s.begun| {
      var read, id := s.begun[k].read, s.begun[k].id;
      assert Fits(read, id, profiles);
      assert forall c :: c in read.capabilities <==> c in ProfileOf(read).capabilities;
      assert ProfileOf(read).agentType == read.agentType;
      var rest := s.begun[..k] + s.begun[k + 1..];
      assert forall i | 0 <= i < |rest| :: rest[i] == s.begun[if i < k then i else i + 1];
      if s.begun[k].Leaving? {
        LeaveMembers(s.store, id, read);
        hide Members; hide RemoveAll; hide SRem; hide Fits;
      } else {
        assert Fits(Amend(read, s.begun[k].update), id, profiles);
        hide Members; hide Amend; hide Fits;
      }
    }
  }

  lemma NextCoherent(s: System, e: Event, profiles: string -> Profile)
    requires Coherent(s, profiles)
    requires e.Registered? ==> ProfileOf(e.agent) == profiles(e.agent.id)
    ensures Coherent(Next(s, e), profiles)
  {
    match e
    case Registered(a) => RegisteredCoherent(s, a, profiles);
    case BeginUpdate(_, _) => hide Members;
    case BeginLeave(_) => hide Members;
    case Finish(k) => FinishCoherent(s, k, profiles);
  }

  lemma {:induction false} AfterCoherent(s: System, events: seq<Event>, profiles: string -> Profile)
    requires Coherent(s, profiles) && Faithful(events, profiles)
    ensures Coherent(After(s, events), profiles)
    decreases |events|
  {
    hide Coherent; hide Next; hide ProfileOf;
    if events != [] {
      NextCoherent(s, events[0], profiles);
      AfterCoherent(Next(s, events[0]), events[1..], profiles);
    }
  }

  lemma CoherentFound(s: System, profiles: string -> Profile, capabilities: seq<string>)
    requires Coherent(s, profiles) && capabilities != []
    ensures s.store.all <= s.store.agents.Keys && Found(s.store, capabilities) == Scan(s.store, capabilities)
  {
    hide Members; hide Found; hide Scan;
    forall id, c | id in s.store.agents
      ensures c in s.store.agents[id].capabilities <==> c in profiles(id).capabilities
    {
      assert Fits(s.store.agents[id], id, profiles);
      assert c in s.store.agents[id].capabilities <==> c in ProfileOf(s.store.agents[id]).capabilities;
    }
    hide Fits;
    FoundIsScan(s.store, capabilities);
  }

  lemma CoherentOfType(s: System, profiles: string -> Profile, agentType: string)
    requires Coherent(s, profiles)
    ensures OfType(s.store, agentType) == ScanType(s.store, agentType)
  {
    hide Members; hide OfType; hide ScanType;
    forall id | id in s.store.agents ensures s.store.agents[id].agentType == profiles(id).agentType {
      assert Fits(s.store.agents[id], id, profiles);
    }
    hide Fits;
    OfTypeIsScan(s.store, agentType);
  }

  const IDLE := System(EMPTY, [])

  /** In every interleaving in which each identifier keeps one type and one set of capabilities, every
      listed identifier has a record, and the query by capabilities and the listing by type still equal
      the scan of the list, although a record may outlive its identifier. */
  lemma InterleavedAgreement(events: seq<Event>, profiles: string -> Profile, capabilities: seq<string>, agentType: string)
    requires Faithful(events, profiles) && capabilities != []
    ensures var st := After(IDLE, events).store;
            && st.all <= st.agents.Keys
            && Found(st, capabilities) == Scan(st, capabilities)
            && OfType(st, agentType) == ScanType(st, agentType)
  {
    AfterCoherent(IDLE, events, profiles);
    hide After; hide Faithful; hide Coherent; hide Found; hide Scan; hide OfType; hide ScanType;
    CoherentFound(After(IDLE, events), profiles, capabilities);
    CoherentOfType(After(IDLE, events), profiles, agentType);
  }

  /** Even without fixed profiles, every listed identifier has a record in every interleaving. */
  lemma {:induction false} ListedHaveRecords(s: System, events: seq<Event>)
    requires s.store.all <= s.store.agents.Keys
    ensures After(s, events).store.all <= After(s, events).store.agents.Keys
    decreases |events|
  {
    if events != [] {
      ListedHaveRecords(Next(s, events[0]), events[1..]);
    }
  }

  /** A finishing write leaves a record outside the list exactly when its identifier is no longer
      listed: the deregistered agent gets its record back. */
  lemma WriteResurrectsIff(s: System, k: nat)
    requires k < |s.begun| && s.begun[k].Updating? && s.store.all == s.store.agents.Keys
    ensures Next(s, Finish(k)).store.all == Next(s, Finish(k)).store.agents.Keys <==> s.begun[k].id in s.store.all
  {
    assert s.begun[k].id in Next(s, Finish(k)).store.agents;
  }

  /** A heartbeat that reads before a deregistration and writes after it brings a record back. */
  lemma ResurrectionHappens(a: AgentInfo, now: int)
    ensures var events := [Registered(a), BeginUpdate(a.id, Seen(now)), BeginLeave(a.id), Finish(1), Finish(0)];
            var st := After(IDLE, events).store;
            a.id !in st.all && a.id in st.agents
  {
    var events := [Registered(a), BeginUpdate(a.id, Seen(now)), BeginLeave(a.id), Finish(1), Finish(0)];
    hide AddAll; hide RemoveAll; hide SAdd; hide SRem;
    var s1 := Next(IDLE, events[0]);
    var s2 := Next(s1, events[1]);
    var s3 := Next(s2, events[2]);
    var s4 := Next(s3, events[3]);
    var s5 := Next(s4, events[4]);
    assert a.id in s1.store.agents && s1.store.agents[a.id] == a;
    assert s3.begun == [Updating(a.id, a, Seen(now)), Leaving(a.id, a)];
    assert s4.begun == [Updating(a.id, a, Seen(now))];
    assert events[1..] == [events[1], events[2], events[3], events[4]];
    assert events[1..][1..] == [events[2], events[3], events[4]];
    assert events[1..][1..][1..] == [events[3], events[4]];
    assert After(s3, [events[3], events[4]]) == After(s4, [events[4]]) == s5;
    assert After(s1, events[1..]) == After(s2, events[1..][1..]) == After(s3, events[1..][1..][1..]);
  }

  // ---- The registry object ----

  class RedisRegistry {
    var connected: bool
    var agents: map<string, AgentInfo>
    var all: set<string>
    var byType: Index
    var byCapability: Index

    constructor ()
      ensures !connected && View() == EMPTY
    {
      connected, agents, all, byType, byCapability := false, map[], {}, map[], map[];
    }

    function View(): Store
      reads this
    {
      Store(agents, all, byType, byCapability)
    }

    method RegisterAgent(agent: AgentInfo, now: int) returns (ok: bool)
      modifies this
      ensures ok == connected == old(connected)
      ensures View() == if ok then Step(old(View()), Register(agent.(lastSeen := now))) else old(View())
    {
      if !connected {
        return false;
      }
      var a := agent.(lastSeen := now);
      agents := agents[a.id := a];
      all := all + {a.id};
      byType := SAdd(byType, a.agentType, a.id);
      for i := 0 to |a.capabilities|
        invariant connected && agents == old(agents)[a.id := a] && all == old(all) + {a.id}
        invariant byType == SAdd(old(byType), a.agentType, a.id)
        invariant byCapability == AddAll(old(byCapability), a.capabilities[..i], a.id)
      {
        byCapability := SAdd(byCapability, a.capabilities[i], a.id);
        assert a.capabilities[..i + 1][..i] == a.capabilities[..i];
      }
      assert a.capabilities[..|a.capabilities|] == a.capabilities;
      return true;
    }

    /** An absent agent counts as deregistered already. */
    method DeregisterAgent(agentID: string) returns (ok: bool)
      modifies this
      ensures ok == connected == old(connected)
      ensures View() == if ok then Step(old(View()), Deregister(agentID)) else old(View())
    {
      if !connected {
        return false;
      }
      if agentID !in agents {
        return true;
      }
      var agent := agents[agentID];
      agents := agents - {agentID};
      all := all - {agentID};
      byType := SRem(byType, agent.agentType, agentID);
      for i := 0 to |agent.capabilities|
        invariant connected && agents == old(agents) - {agentID} && all == old(all) - {agentID}
        invariant byType == SRem(old(byType), agent.agentType, agentID)
        invariant byCapability == RemoveAll(old(byCapability), agent.capabilities[..i], agentID)
      {
        byCapability := SRem(byCapability, agent.capabilities[i], agentID);
        assert agent.capabilities[..i + 1][..i] == agent.capabilities[..i];
      }
      assert agent.capabilities[..|agent.capabilities|] == agent.capabilities;
      return true;
    }

    /** Fails for an absent agent, unlike the two updates below. */
    method UpdateAgentStatus(agentID: string, state: AgentState, now: int) returns (ok: bool)
      modifies this
      ensures connected == old(connected) && ok == (connected && agentID in old(agents))
      ensures View() == if connected then Step(old(View()), Touch(agentID, StatusTo(state, now))) else old(View())
    {
      if !connected {
        return false;
      }
      if agentID !in agents {
        return false;
      }
      agents := agents[agentID := agents[agentID].(state := state, lastSeen := now)];
      return true;
    }

    method UpdateAgentLoad(agentID: string, load: int, now: int) returns (ok: bool)
      modifies this
      ensures ok == connected == old(connected)
      ensures View() == if ok then Step(old(View()), Touch(agentID, LoadTo(load, now))) else old(View())
    {
      if !connected {
        return false;
      }
      if agentID in agents {
        agents := agents[agentID := agents[agentID].(load := load, lastSeen := now)];
      }
      return true;
    }

    method Heartbeat(agentID: string, now: int) returns (ok: bool)
      modifies this
      ensures ok == connected == old(connected)
      ensures View() == if ok then Step(old(View()), Touch(agentID, Seen(now))) else old(View())
    {
      if !connected {
        return false;
      }
      if agentID in agents {
        agents := agents[agentID := agents[agentID].(lastSeen := now)];
      }
      return true;
    }

    /** Reads the records of the identifiers in arbitrary order, skipping those that have none. */
    method Fetch(ids: set<string>) returns (listed: seq<AgentInfo>)
      ensures Lists(View(), ids, listed)
    {
      hide Lists;
      listed := [];
      var rest := ids;
      ghost var st, done := View(), {};
      ListsNone(st);
      while rest != {}
        invariant rest <= ids && done == ids - rest
        invariant Lists(st, done, listed)
        decreases rest
      {
        var id :| id in rest;
        ghost var before := listed;
        if id in agents {
          listed := listed + [agents[id]];
        }
        ListsStep(st, done, id, before, listed);
        rest, done := rest - {id}, done + {id};
      }
      assert done == ids;
    }

    /** Each agent is listed once. */
    method ListAllAgents() returns (result: Option<seq<AgentInfo>>)
      ensures result.Some? <==> connected
      ensures result.Some? ==> Lists(View(), all, result.value)
    {
      if !connected {
        return None;
      }
      var listed := Fetch(all);
      return Some(listed);
    }

    method ListAgentsByType(agentType: string) returns (result: Option<seq<AgentInfo>>)
      ensures result.Some? <==> connected
      ensures result.Some? ==> Lists(View(), Members(byType, agentType), result.value)
      ensures result.Some? ==> Elements(result.value) == OfType(View(), agentType)
    {
      if !connected {
        return None;
      }
      var listed := Fetch(Members(byType, agentType));
      return Some(listed);
    }

    method FindAgentsByMultipleCapabilities(capabilities: seq<string>) returns (result: Option<seq<AgentInfo>>)
      ensures result.Some? <==> connected
      ensures result.Some? ==> Elements(result.value) == Found(View(), capabilities)
    {
      if |capabilities| == 0 {
        result := ListAllAgents();
        return;
      }
      if !connected {
        return None;
      }
      var ids, found := SInter(byCapability, capabilities), [];
      ghost var st, matching, done := View(), ids, {};
      assert RunningOf(Records(st, {})) == {};
      assert Elements([]) == {};
      hide RunningOf; hide Records; hide SInter; hide Elements;
      while ids != {}
        invariant ids <= matching && done == matching - ids
        invariant Elements(found) == RunningOf(Records(st, done))
        decreases ids
      {
        var id :| id in ids;
        RunningStep(st, done, id);
        if id in agents && agents[id].state == Running {
          ElementsSnoc(found, agents[id]);
          found := found + [agents[id]];
        }
        ids, done := ids - {id}, done + {id};
      }
      assert done == matching;
      return Some(found);
    }
  }

  lemma RecordsStep(st: Store, done: set<string>, id: string)
    ensures Records(st, done + {id}) == Records(st, done) + if id in st.agents then {st.agents[id]} else {}
  {
    var more := done + {id};
    forall a | a in Records(st, done) ensures a in Records(st, more) {
      var k :| k in done && k in st.agents && a == st.agents[k];
      assert k in more;
    }
    assert id in more;
  }

  lemma RunningStep(st: Store, done: set<string>, id: string)
    ensures RunningOf(Records(st, done + {id}))
            == RunningOf(Records(st, done)) + if id in st.agents && st.agents[id].state == Running then {st.agents[id]} else {}
  {
    RecordsStep(st, done, id);
    hide Records;
  }

  lemma ListsNone(st: Store)
    ensures Lists(st, {}, [])
  {
    assert {} * st.agents.Keys == {};
  }

  lemma CommonStep(done: set<string>, id: string, keys: set<string>)
    requires id !in done
    ensures |(done + {id}) * keys| == |done * keys| + if id in keys then 1 else 0
  {
    assert (done + {id}) * keys == done * keys + if id in keys then {id} else {};
  }

  lemma ListsStep(st: Store, done: set<string>, id: string, listed: seq<AgentInfo>, longer: seq<AgentInfo>)
    requires Lists(st, done, listed) && id !in done
    requires longer == if id in st.agents then listed + [st.agents[id]] else listed
    ensures Lists(st, done + {id}, longer)
  {
    hide Records; hide Elements;
    RecordsStep(st, done, id);
    if id in st.agents {
      ElementsSnoc(listed, st.agents[id]);
    }
    CommonStep(done, id, st.agents.Keys);
  }

  lemma ElementsSnoc(s: seq<AgentInfo>, a: AgentInfo)
    ensures Elements(s + [a]) == Elements(s) + {a}
  {
  }
}
