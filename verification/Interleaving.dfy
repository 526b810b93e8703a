/**
 Several managers over one store, as a transition system.  An acquire is three steps: consult
 (which ends in one atomic store get), compute (the environment supplies any payload, or
 raises, which ends the acquire), and publish (one atomic store put).  Steps of different managers interleave freely, so two of
 them can race on a miss; other parties may read or delete records at any time.
 */
module Interleaving {
  import opened Wrappers
  import opened Json
  import opened Topology
  import opened TopologyTheorems
  import opened Identity
  import opened Store
  import opened StoreTheorems
  import opened Manager
  import opened Runtime

  datatype Phase =
    | Idle
    | Computing(invocation: InvocationPlan, rejected: bool)
    | Publishing(invocation: InvocationPlan, rejected: bool, payload: Bytes)

  datatype Answered = Answered(invocation: InvocationPlan, result: AccessResult)

  /** A manager with its current acquire and a log: its completed acquires, and the keys acquired since the last clear. */
  datatype Agent = Agent(
    manager: ManagerState,
    phase: Phase,
    answers: seq<Answered>,
    recent: seq<Key>)

  /** One call of a compute function. */
  datatype Computation = Computation(policy: Policy, invocation: InvocationPlan, payload: Bytes)

  datatype World = World(agents: map<string, Agent>, store: StoreState, computations: set<Computation>)

  datatype Event =
    | Begin(id: string, invocation: InvocationPlan, admission: Option<Admission>, estimate: Option<int>)
    | Compute(id: string, payload: Bytes)
    | Abort(id: string)
    | Finish(id: string, metadata: Option<JsonObject>, now: int)
    | ClearTables(id: string)
    | ForeignGet(key: Key)
    | ForeignDelete(key: Key, expected: Option<int>)

  function KeyOf(policy: Policy, invocation: InvocationPlan): Key {
    StateKey(policy, invocation.layout, invocation.requestId, invocation.graphDigest)
  }

  function FreshAgent(policy: Policy, maxLocalEntries: nat): Agent {
    Agent(FreshManager(policy, maxLocalEntries), Idle, [], [])
  }

  // ---------- steps ----------

  function Complete(a: Agent, invocation: InvocationPlan, result: AccessResult): Agent {
    a.(phase := Idle,
       answers := a.answers + [Answered(invocation, result)],
       recent := if a.manager.policy == Reset then a.recent else a.recent + [result.key])
  }

  function AgentBegin(a: Agent, s: StoreState, invocation: InvocationPlan, admission: Option<Admission>, estimate: Option<int>)
    : (Agent, StoreState)
  {
    if !a.phase.Idle? then (a, s)
    else if a.manager.policy == Reset then (a.(phase := Computing(invocation, false)), s)
    else
      var (m, s', answer) := Consult(a.manager, Some(s), KeyOf(a.manager.policy, invocation), admission, estimate);
      match answer
      case Hit(result) => (Complete(a.(manager := m), invocation, result), s'.value)
      case Miss(rejected) => (a.(manager := m, phase := Computing(invocation, rejected)), s'.value)
  }

  function AgentCompute(a: Agent, payload: Bytes): Agent {
    if a.phase.Computing? then a.(phase := Publishing(a.phase.invocation, a.phase.rejected, payload)) else a
  }

  /** The compute function raised. */
  function AgentAbort(a: Agent): Agent {
    if a.phase.Computing? then a.(phase := Idle) else a
  }

  function AgentFinish(a: Agent, s: StoreState, metadata: Option<JsonObject>, now: int): (Agent, StoreState)
  {
    match a.phase
    case Publishing(invocation, rejected, payload) =>
      var key := KeyOf(a.manager.policy, invocation);
      if a.manager.policy == Reset then
        var (m, result) := AcquireReset(a.manager, key, payload);
        (Complete(a.(manager := m), invocation, result), s)
      else
        var (m, s', outcome) := Settle(a.manager, Some(s), key, rejected, payload, metadata, now);
        (match outcome
         case Ok(result) => Complete(a.(manager := m), invocation, result)
         case Err(_) => a.(manager := m, phase := Idle),
         s'.value)
    case _ => (a, s)
  }

  function AgentClear(a: Agent): Agent {
    a.(manager := a.manager.(local := map[], localOrder := []), recent := [])
  }

  function Next(w: World, e: Event): World
  {
    match e
    case Begin(id, invocation, admission, estimate) =>
      if id !in w.agents then w
      else
        var (a, s) := AgentBegin(w.agents[id], w.store, invocation, admission, estimate);
        w.(agents := w.agents[id := a], store := s)
    case Compute(id, payload) =>
      if id !in w.agents || !w.agents[id].phase.Computing? then w
      else
        var a := w.agents[id];
        w.(agents := w.agents[id := AgentCompute(a, payload)],
           computations := w.computations + {Computation(a.manager.policy, a.phase.invocation, payload)})
    case Abort(id) =>
      if id !in w.agents then w else w.(agents := w.agents[id := AgentAbort(w.agents[id])])
    case Finish(id, metadata, now) =>
      if id !in w.agents then w
      else
        var (a, s) := AgentFinish(w.agents[id], w.store, metadata, now);
        w.(agents := w.agents[id := a], store := s)
    case ClearTables(id) =>
      if id !in w.agents then w else w.(agents := w.agents[id := AgentClear(w.agents[id])])
    case ForeignGet(key) => w.(store := StoreGet(w.store, key).0)
    case ForeignDelete(key, expected) => w.(store := StoreDelete(w.store, key, expected).0)
  }

  function RunWorld(w: World, events: seq<Event>): World {
    if events == [] then w else Next(RunWorld(w, events[..|events| - 1]), events[|events| - 1])
  }

  /** A world as it is started: an empty store, fresh managers with any policies and bounds. */
  ghost predicate Initial(w: World) {
    && w.store.maxBytes > 0 && w.store == EmptyStore(w.store.maxBytes)
    && w.computations == {}
    && forall id :: id in w.agents ==> FreshlyStarted(w.agents[id])
  }

  predicate FreshlyStarted(a: Agent) {
    a.manager.maxLocalEntries > 0 && a == FreshAgent(a.manager.policy, a.manager.maxLocalEntries)
  }

  /** The three steps with nothing in between. */
  function Uninterrupted(a: Agent, s: StoreState, invocation: InvocationPlan, admission: Option<Admission>,
                         estimate: Option<int>, computed: Option<Bytes>, metadata: Option<JsonObject>, now: int): (Agent, StoreState)
  {
    var (a1, s1) := AgentBegin(a, s, invocation, admission, estimate);
    match computed
    case None => (AgentAbort(a1), s1)
    case Some(payload) => AgentFinish(AgentCompute(a1, payload), s1, metadata, now)
  }

  lemma BeginStep(a: Agent, s: StoreState, invocation: InvocationPlan, admission: Option<Admission>, estimate: Option<int>)
    requires a.phase.Idle? && a.manager.policy != Reset
    ensures var (m, s', answer) := Consult(a.manager, Some(s), KeyOf(a.manager.policy, invocation), admission, estimate);
      && m.policy == a.manager.policy && s'.Some?
      && AgentBegin(a, s, invocation, admission, estimate) ==
         (if answer.Hit? then Complete(a.(manager := m), invocation, answer.result)
          else a.(manager := m, phase := Computing(invocation, answer.rejected)), s'.value)
  {
  }

  /** Publishing is settling the miss. */
  lemma PublishStep(a: Agent, s: StoreState, metadata: Option<JsonObject>, now: int)
    requires a.phase.Publishing? && a.manager.policy != Reset
    ensures var (a', s') := AgentFinish(a, s, metadata, now);
      var (m, store, outcome) :=
        Settle(a.manager, Some(s), KeyOf(a.manager.policy, a.phase.invocation), a.phase.rejected, a.phase.payload, metadata, now);
      && store == Some(s') && a'.manager == m && a'.phase.Idle?
      && (outcome.Ok? ==> a' == Complete(a.(manager := m), a.phase.invocation, outcome.value))
      && (outcome.Err? ==> a' == a.(phase := Idle) && s' == s)
  {
  }

  ghost predicate IsAcquire(a: Agent, s: StoreState, after: (Agent, StoreState), invocation: InvocationPlan, admission: Option<Admission>,
                            estimate: Option<int>, computed: Option<Bytes>, metadata: Option<JsonObject>, now: int)
  {
    var (m, s', outcome) := ManagerAcquire(a.manager, Some(s), KeyOf(a.manager.policy, invocation), computed, metadata,
                                           admission, estimate, now);
    && after.0.phase.Idle? && after.0.manager == m && Some(after.1) == s'
    && after.0.answers == a.answers + if outcome.Ok? then [Answered(invocation, outcome.value)] else []
  }

  lemma UninterruptedMiss(a: Agent, s: StoreState, invocation: InvocationPlan, admission: Option<Admission>,
                          estimate: Option<int>, payload: Bytes, metadata: Option<JsonObject>, now: int)
    requires a.phase.Idle? && a.manager.policy != Reset
    requires Consult(a.manager, Some(s), KeyOf(a.manager.policy, invocation), admission, estimate).2.Miss?
    ensures IsAcquire(a, s, Uninterrupted(a, s, invocation, admission, estimate, Some(payload), metadata, now),
                      invocation, admission, estimate, Some(payload), metadata, now)
  {
    var (m, s', answer) := Consult(a.manager, Some(s), KeyOf(a.manager.policy, invocation), admission, estimate);
    BeginStep(a, s, invocation, admission, estimate);
    PublishStep(a.(manager := m, phase := Publishing(invocation, answer.rejected, payload)), s'.value, metadata, now);
  }

  /** With nothing in between, the three steps are one acquire. */
  lemma {:induction false} UninterruptedAcquire(a: Agent, s: StoreState, invocation: InvocationPlan, admission: Option<Admission>,
                             estimate: Option<int>, computed: Option<Bytes>, metadata: Option<JsonObject>, now: int)
    requires a.phase.Idle?
    ensures IsAcquire(a, s, Uninterrupted(a, s, invocation, admission, estimate, computed, metadata, now),
                      invocation, admission, estimate, computed, metadata, now)
  {
    if a.manager.policy != Reset {
      BeginStep(a, s, invocation, admission, estimate);
      if computed.Some? && Consult(a.manager, Some(s), KeyOf(a.manager.policy, invocation), admission, estimate).2.Miss? {
        UninterruptedMiss(a, s, invocation, admission, estimate, computed.value, metadata, now);
      }
    }
  }

  // ---------- provenance ----------

  ghost predicate Produced(computations: set<Computation>, key: Key, payload: Bytes) {
    exists c :: c in computations && KeyOf(c.policy, c.invocation) == key && c.payload == payload
  }

  ghost predicate RecordsProduced(computations: set<Computation>, s: StoreState) {
    forall r :: r in s.records ==> Produced(computations, r.key, r.payload)
  }

  ghost predicate LocalProduced(computations: set<Computation>, m: ManagerState) {
    forall k :: k in m.local ==> Produced(computations, k, m.local[k].payload)
  }

  ghost predicate AnswerProduced(computations: set<Computation>, policy: Policy, answer: Answered) {
    && answer.result.key == KeyOf(policy, answer.invocation)
    && Produced(computations, answer.result.key, answer.result.payload)
    && (answer.result.decision.Recompute? || answer.result.decision.RemoteRejected? ==>
          Computation(policy, answer.invocation, answer.result.payload) in computations)
    && (policy == Reset ==> answer.result.decision.Recompute?)
  }

  ghost predicate AgentProduced(computations: set<Computation>, a: Agent) {
    && ValidManager(a.manager)
    && LocalProduced(computations, a.manager)
    && (a.phase.Publishing? ==> Computation(a.manager.policy, a.phase.invocation, a.phase.payload) in computations)
    && (a.phase != Idle && a.manager.policy == Reset ==> !a.phase.rejected)
    && (forall answer :: answer in a.answers ==> AnswerProduced(computations, a.manager.policy, answer))
  }

  ghost predicate Provenance(w: World) {
    && ValidStore(w.store)
    && RecordsProduced(w.computations, w.store)
    && forall id :: id in w.agents ==> AgentProduced(w.computations, w.agents[id])
  }

  lemma ProducedGrows(before: set<Computation>, after: set<Computation>, key: Key, payload: Bytes)
    requires before <= after && Produced(before, key, payload)
    ensures Produced(after, key, payload)
  {
  }

  lemma AgentProducedGrows(before: set<Computation>, after: set<Computation>, a: Agent)
    requires before <= after && AgentProduced(before, a)
    ensures AgentProduced(after, a)
  {
  }

  lemma RememberProduced(computations: set<Computation>, m: ManagerState, record: StateRecord)
    requires LocalProduced(computations, m) && Produced(computations, record.key, record.payload)
    ensures LocalProduced(computations, Remember(m, record))
  {
  }

  lemma {:induction false} ConsultProduced(computations: set<Computation>, m: ManagerState, s: StoreState, key: Key,
                        admission: Option<Admission>, estimate: Option<int>)
    requires ValidManager(m) && LocalProduced(computations, m) && ValidStore(s) && RecordsProduced(computations, s)
    ensures var (m', s', answer) := Consult(m, Some(s), key, admission, estimate);
      && m'.policy == m.policy && ValidManager(m') && LocalProduced(computations, m')
      && s'.Some? && ValidStore(s'.value) && RecordsProduced(computations, s'.value)
      && (answer.Hit? ==>
            && answer.result.key == key && Produced(computations, key, answer.result.payload)
            && (answer.result.decision.LocalHit? || answer.result.decision.RemoteHit?))
  {
    GetValid(s, key);
    ConsultValid(m, Some(s), key, admission, estimate);
    var found := Lookup(s.records, key);
    if found.Some? {
      RememberProduced(computations, m, found.value);
    }
  }

  lemma {:induction false} BeginProduced(computations: set<Computation>, a: Agent, s: StoreState, invocation: InvocationPlan,
                      admission: Option<Admission>, estimate: Option<int>)
    requires AgentProduced(computations, a) && ValidStore(s) && RecordsProduced(computations, s)
    ensures var (a', s') := AgentBegin(a, s, invocation, admission, estimate);
      AgentProduced(computations, a') && ValidStore(s') && RecordsProduced(computations, s')
  {
    if a.phase.Idle? && a.manager.policy != Reset {
      ConsultProduced(computations, a.manager, s, KeyOf(a.manager.policy, invocation), admission, estimate);
    }
  }

  lemma {:induction false} SettleProduced(computations: set<Computation>, m: ManagerState, s: StoreState, key: Key, rejected: bool, payload: Bytes,
                       metadata: Option<JsonObject>, now: int)
    requires ValidManager(m) && LocalProduced(computations, m) && ValidStore(s) && RecordsProduced(computations, s)
    requires Produced(computations, key, payload)
    ensures var (m', s', outcome) := Settle(m, Some(s), key, rejected, payload, metadata, now);
      && m'.policy == m.policy && ValidManager(m') && LocalProduced(computations, m')
      && s'.Some? && ValidStore(s'.value) && RecordsProduced(computations, s'.value)
      && (outcome.Ok? ==> outcome.value.key == key && outcome.value.payload == payload)
  {
    PutProduced(computations, s, key, payload, OrEmpty(metadata), now);
    SettleValid(m, Some(s), key, rejected, payload, metadata, now);
    RememberProduced(computations, m, StateRecord(key, VersionOf(s, key) + 1, payload, OrEmpty(metadata), now));
  }

  lemma {:induction false} FinishProduced(computations: set<Computation>, a: Agent, s: StoreState, metadata: Option<JsonObject>, now: int)
    requires AgentProduced(computations, a) && ValidStore(s) && RecordsProduced(computations, s)
    ensures var (a', s') := AgentFinish(a, s, metadata, now);
      AgentProduced(computations, a') && ValidStore(s') && RecordsProduced(computations, s')
  {
    if a.phase.Publishing? {
      var key := KeyOf(a.manager.policy, a.phase.invocation);
      assert Produced(computations, key, a.phase.payload);
      if a.manager.policy != Reset {
        SettleProduced(computations, a.manager, s, key, a.phase.rejected, a.phase.payload, metadata, now);
        PublishStep(a, s, metadata, now);
      }
    }
  }

  lemma PutProduced(computations: set<Computation>, s: StoreState, key: Key, payload: Bytes, metadata: JsonObject, now: int)
    requires ValidStore(s) && RecordsProduced(computations, s) && Produced(computations, key, payload)
    ensures var s' := StorePut(s, key, payload, metadata, None, now).0;
      ValidStore(s') && RecordsProduced(computations, s')
  {
    var op := Put(key, payload, metadata, None, now);
    PutValid(s, key, payload, metadata, None, now);
    StepShape(s, op);
    if Touches(s, op, key) {
      assert forall r :: r in Step(s, op).records ==> r in Appendix(s.records, Newest(s, op));
    }
  }

  lemma {:induction false} NextProvenance(w: World, e: Event)
    requires Provenance(w)
    ensures Provenance(Next(w, e))
  {
    match e
    case Begin(id, invocation, admission, estimate) =>
      if id in w.agents { BeginProduced(w.computations, w.agents[id], w.store, invocation, admission, estimate); }
    case Compute(id, payload) =>
      forall other | other in w.agents ensures AgentProduced(Next(w, e).computations, w.agents[other]) {
        AgentProducedGrows(w.computations, Next(w, e).computations, w.agents[other]);
      }
      forall r | r in w.store.records ensures Produced(Next(w, e).computations, r.key, r.payload) {
        ProducedGrows(w.computations, Next(w, e).computations, r.key, r.payload);
      }
    case Abort(id) =>
    case Finish(id, metadata, now) =>
      if id in w.agents { FinishProduced(w.computations, w.agents[id], w.store, metadata, now); }
    case ClearTables(id) =>
    case ForeignGet(key) => GetValid(w.store, key);
    case ForeignDelete(key, expected) => DeleteValid(w.store, key, expected);
  }

  /** In every interleaving, every payload a manager returns was produced by a compute call for the same key. */
  lemma {:induction false} EveryAnswerWasComputed(start: World, events: seq<Event>)
    requires Initial(start)
    ensures Provenance(RunWorld(start, events))
  {
    if events == [] {
      forall id | id in start.agents ensures AgentProduced({}, start.agents[id]) {
        assert FreshlyStarted(start.agents[id]);
      }
    } else {
      EveryAnswerWasComputed(start, events[..|events| - 1]);
      NextProvenance(RunWorld(start, events[..|events| - 1]), events[|events| - 1]);
    }
  }

  lemma NextExact(w: World, e: Event)
    requires ValidStore(w.store)
    ensures ValidStore(Next(w, e).store) && Drift(Next(w, e).store) == Drift(w.store)
  {
    match e
    case Begin(id, invocation, _, _) =>
      if id in w.agents { GetValid(w.store, KeyOf(w.agents[id].manager.policy, invocation)); }
    case Finish(id, metadata, now) =>
      if id in w.agents && w.agents[id].phase.Publishing? {
        var a := w.agents[id];
        PutValid(w.store, KeyOf(a.manager.policy, a.phase.invocation), a.phase.payload, OrEmpty(metadata), None, now);
      }
    case ForeignGet(key) => GetValid(w.store, key);
    case ForeignDelete(key, expected) => DeleteValid(w.store, key, expected);
    case _ =>
  }

  /** Managers put dictionaries, so in every interleaving the byte counter is exact and the resident payloads are within the bound. */
  lemma {:induction false} StoreStaysExact(start: World, events: seq<Event>)
    requires Initial(start)
    ensures var s := RunWorld(start, events).store; ValidStore(s) && s.bytes == Total(s.records) <= s.maxBytes
  {
    if events != [] {
      StoreStaysExact(start, events[..|events| - 1]);
      NextExact(RunWorld(start, events[..|events| - 1]), events[|events| - 1]);
    }
  }

  /** Transparency: if compute is a function of the key, every acquire returns what compute would have returned. */
  lemma Transparency(start: World, events: seq<Event>, compute: Key -> Bytes, id: string, answer: Answered)
    requires Initial(start)
    requires forall c :: c in RunWorld(start, events).computations ==> c.payload == compute(KeyOf(c.policy, c.invocation))
    requires id in RunWorld(start, events).agents && answer in RunWorld(start, events).agents[id].answers
    ensures answer.result.payload == compute(KeyOf(RunWorld(start, events).agents[id].manager.policy, answer.invocation))
  {
    EveryAnswerWasComputed(start, events);
    var w := RunWorld(start, events);
    assert AnswerProduced(w.computations, w.agents[id].manager.policy, answer);
  }

  // ---------- the wrong-layout check ----------

  /** The invocation was planned from some valid graph, with this model. */
  ghost predicate PlannedFrom(invocation: InvocationPlan, g: GraphSpec, model: string) {
    && FaultFree(g) && invocation.role in g.activeRoles
    && invocation.graphDigest == Digest(g)
    && invocation.layout == LayoutOf(g, invocation.role, model, map[])
  }

  ghost predicate Planned(invocation: InvocationPlan, model: string) {
    exists g :: PlannedFrom(invocation, g, model)
  }

  /** Under graph and layout keys, one key means one layout. */
  lemma {:induction false} KeyDeterminesLayout(policy: Policy, policy': Policy, a: InvocationPlan, b: InvocationPlan, model: string)
    requires Planned(a, model) && Planned(b, model)
    requires KeyOf(policy, a) == KeyOf(policy', b) && policy != Reset
    ensures policy == policy' && a.layout == b.layout
  {
    var g :| PlannedFrom(a, g, model);
    var h :| PlannedFrom(b, h, model);
    if policy == WholeGraph {
      GraphKeyDeterminesLayout(g, h, a.role, model, map[]);
    }
  }

  /** Every compute call was for a planned invocation, and its payload, unless never stored, carries that layout's digest. */
  ghost predicate Tagged(computations: set<Computation>, model: string, tag: Bytes -> LayoutDigest) {
    forall c :: c in computations ==>
      && Planned(c.invocation, model)
      && (c.policy != Reset ==> tag(c.payload) == c.invocation.layout.digest)
  }

  /** If computed payloads carry their layout, then in every interleaving so does every returned payload. */
  lemma PayloadsCarryLayouts(start: World, events: seq<Event>, model: string, tag: Bytes -> LayoutDigest, id: string, answer: Answered)
    requires Initial(start) && Tagged(RunWorld(start, events).computations, model, tag)
    requires id in RunWorld(start, events).agents && answer in RunWorld(start, events).agents[id].answers
    requires Planned(answer.invocation, model) && RunWorld(start, events).agents[id].manager.policy != Reset
    ensures tag(answer.result.payload) == answer.invocation.layout.digest
  {
    EveryAnswerWasComputed(start, events);
    var w := RunWorld(start, events);
    var policy := w.agents[id].manager.policy;
    assert AnswerProduced(w.computations, policy, answer);
    var c :| c in w.computations && KeyOf(c.policy, c.invocation) == answer.result.key && c.payload == answer.result.payload;
    KeyDeterminesLayout(policy, c.policy, answer.invocation, c.invocation, model);
  }

  /** Everything the runtime plans for an accepted request is planned from that request's graph. */
  lemma PlansArePlanned(request: TopologyRequest, model: string, placement: Placement, instances: seq<string>,
                        position: int, repetition: int)
    requires instances != [] && Order(request.graph).Ok?
    ensures forall role :: role in Order(request.graph).value ==> role in request.graph.activeRoles
    ensures forall p ::
      p in PlanRoles(request, Order(request.graph).value, model, placement, instances, position, repetition) ==> Planned(p, model)
  {
    var order := Order(request.graph).value;
    OrderIsLeast(request.graph);
    OrderRoles(request.graph);
    PlanEntries(request, order, model, placement, instances, position, repetition);
    forall p | p in PlanRoles(request, order, model, placement, instances, position, repetition) ensures Planned(p, model) {
      assert PlannedFrom(p, request.graph, model);
    }
  }

  // ---------- the store's history ----------

  /** The store operation a step performs, if it reaches the store. */
  ghost function WorldOp(w: World, e: Event): Option<Op> {
    match e
    case Begin(id, invocation, _, _) =>
      if id in w.agents && w.agents[id].phase.Idle? && w.agents[id].manager.policy != Reset &&
         KeyOf(w.agents[id].manager.policy, invocation) !in w.agents[id].manager.local
      then Some(Get(KeyOf(w.agents[id].manager.policy, invocation))) else None
    case Finish(id, metadata, now) =>
      if id in w.agents && w.agents[id].phase.Publishing? && w.agents[id].manager.policy != Reset
      then Some(Put(KeyOf(w.agents[id].manager.policy, w.agents[id].phase.invocation), w.agents[id].phase.payload,
                    OrEmpty(metadata), None, now)) else None
    case ForeignGet(key) => Some(Get(key))
    case ForeignDelete(key, expected) => Some(Delete(key, expected))
    case _ => None
  }

  lemma NextIsOp(w: World, e: Event)
    ensures Next(w, e).store == match WorldOp(w, e) case None => w.store case Some(op) => Step(w.store, op)
  {
    match e
    case Begin(id, invocation, admission, estimate) =>
      if id in w.agents && w.agents[id].phase.Idle? && w.agents[id].manager.policy != Reset {
        BeginStep(w.agents[id], w.store, invocation, admission, estimate);
      }
    case Finish(id, metadata, now) =>
      if id in w.agents && w.agents[id].phase.Publishing? && w.agents[id].manager.policy != Reset {
        PublishStep(w.agents[id], w.store, metadata, now);
      }
    case _ =>
  }

  ghost function WorldOps(start: World, events: seq<Event>): seq<Op> {
    if events == [] then []
    else
      var n := |events| - 1;
      var op := WorldOp(RunWorld(start, events[..n]), events[n]);
      WorldOps(start, events[..n]) + if op.Some? then [op.value] else []
  }

  /** So in every interleaving the shared store has the history of the operations that reached it. */
  lemma {:induction false} WorldRuns(start: World, events: seq<Event>)
    ensures RunWorld(start, events).store == Run(start.store, WorldOps(start, events))
  {
    if events != [] {
      var n := |events| - 1;
      WorldRuns(start, events[..n]);
      NextIsOp(RunWorld(start, events[..n]), events[n]);
      AppendOp(start.store, WorldOps(start, events[..n]), WorldOp(RunWorld(start, events[..n]), events[n]));
    }
  }

  lemma AppendOp(s: StoreState, ops: seq<Op>, op: Option<Op>)
    ensures Run(s, ops + if op.Some? then [op.value] else []) ==
      match op case None => Run(s, ops) case Some(last) => Step(Run(s, ops), last)
  {
    if op.Some? {
      RunAppend(s, ops, op.value);
    } else {
      assert ops + [] == ops;
    }
  }

  // ---------- racing on a miss ----------

  /** Two managers that both consult the store before either publishes. */
  function RaceEvents(a: string, b: string, invocation: InvocationPlan, payload: Bytes, now: int): seq<Event> {
    [Begin(a, invocation, None, None), Begin(b, invocation, None, None),
     Compute(a, payload), Compute(b, payload), Finish(a, None, now), Finish(b, None, now)]
  }

  // Short runs are unrolled as folds, without looking into the steps.

  function Fold<S, E>(step: (S, E) -> S, s: S, events: seq<E>): S {
    if events == [] then s else step(Fold(step, s, events[..|events| - 1]), events[|events| - 1])
  }

  lemma FoldPrefix<S, E>(step: (S, E) -> S, s: S, events: seq<E>, n: nat)
    requires n < |events|
    ensures Fold(step, s, events[..n + 1]) == step(Fold(step, s, events[..n]), events[n])
  {
    assert events[..n + 1][..n] == events[..n];
  }

  lemma FoldThree<S, E>(step: (S, E) -> S, s: S, events: seq<E>, n: nat)
    requires n + 2 < |events|
    ensures Fold(step, s, events[..n + 3]) ==
            step(step(step(Fold(step, s, events[..n]), events[n]), events[n + 1]), events[n + 2])
  {
    FoldPrefix(step, s, events, n);
    FoldPrefix(step, s, events, n + 1);
    FoldPrefix(step, s, events, n + 2);
  }

  lemma {:induction false} RunIsFold(w: World, events: seq<Event>)
    ensures RunWorld(w, events) == Fold(Next, w, events)
  {
    if events != [] {
      RunIsFold(w, events[..|events| - 1]);
    }
  }

  /** Publishing a payload that fits counts one recompute and raises the key's version by one. */
  lemma FinishRecompute(agent: Agent, s: StoreState, invocation: InvocationPlan, payload: Bytes, now: int)
    requires ValidStore(s) && |payload| <= s.maxBytes
    requires agent.phase == Publishing(invocation, false, payload) && agent.manager.policy != Reset
    ensures var key := KeyOf(agent.manager.policy, invocation);
      var (agent', s') := AgentFinish(agent, s, None, now);
      && agent'.manager.stats.recomputes == agent.manager.stats.recomputes + 1
      && ValidStore(s') && s'.maxBytes == s.maxBytes && VersionOf(s', key) == VersionOf(s, key) + 1
  {
    var op := Put(KeyOf(agent.manager.policy, invocation), payload, map[], None, now);
    assert PutSucceeds(s, op);
    StepVersion(s, op, op.key);
    StepValid(s, op);
  }

  /**
   Two managers racing on a miss both recompute and the second publication makes version 2,
   so the exact decision counts hold for uninterrupted acquires only.
   */
  lemma RaceRecomputesTwice(w: World, a: string, b: string, invocation: InvocationPlan, payload: Bytes, now: int)
    requires Initial(w) && a in w.agents && b in w.agents && a != b
    requires w.agents[a].manager.policy == w.agents[b].manager.policy == LocalLayout
    requires |payload| <= w.store.maxBytes
    ensures var end := RunWorld(w, RaceEvents(a, b, invocation, payload, now));
      && a in end.agents && end.agents[a].manager.stats.recomputes == 1
      && b in end.agents && end.agents[b].manager.stats.recomputes == 1
      && VersionOf(end.store, KeyOf(LocalLayout, invocation)) == 2
  {
    RaceUnrolled(w, RaceEvents(a, b, invocation, payload, now));
    RaceMeets(w, a, b, invocation, payload);
    RaceEnds(BothComputed(w, a, b, invocation, payload), a, b, invocation, payload, now);
  }

  lemma RaceEnds(w: World, a: string, b: string, invocation: InvocationPlan, payload: Bytes, now: int)
    requires a in w.agents && b in w.agents && a != b
    requires w.agents[a].phase == w.agents[b].phase == Publishing(invocation, false, payload)
    requires w.agents[a].manager.policy == w.agents[b].manager.policy == LocalLayout
    requires w.agents[a].manager.stats == NO_STATS == w.agents[b].manager.stats
    requires w.store == EmptyStore(w.store.maxBytes) && |payload| <= w.store.maxBytes && w.store.maxBytes > 0
    ensures var end := Next(Next(w, Finish(a, None, now)), Finish(b, None, now));
      && a in end.agents && end.agents[a].manager.stats.recomputes == 1
      && b in end.agents && end.agents[b].manager.stats.recomputes == 1
      && VersionOf(end.store, KeyOf(LocalLayout, invocation)) == 2
  {
    RaceFinish(w, a, b, invocation, payload, now);
    RaceFinish(Next(w, Finish(a, None, now)), b, a, invocation, payload, now);
  }

  /** The world in which both managers have computed. */
  function BothComputed(w: World, a: string, b: string, invocation: InvocationPlan, payload: Bytes): World {
    Next(Next(Next(Next(w, Begin(a, invocation, None, None)), Begin(b, invocation, None, None)),
              Compute(a, payload)), Compute(b, payload))
  }

  lemma RaceMeets(w: World, a: string, b: string, invocation: InvocationPlan, payload: Bytes)
    requires Initial(w) && a in w.agents && b in w.agents && a != b
    requires w.agents[a].manager.policy == w.agents[b].manager.policy == LocalLayout
    ensures var w4 := BothComputed(w, a, b, invocation, payload);
      && w4.store == w.store && a in w4.agents && b in w4.agents
      && w4.agents[a] == w.agents[a].(phase := Publishing(invocation, false, payload))
      && w4.agents[b] == w.agents[b].(phase := Publishing(invocation, false, payload))
      && w.agents[a].manager.stats == NO_STATS == w.agents[b].manager.stats
  {
    assert FreshlyStarted(w.agents[a]) && FreshlyStarted(w.agents[b]);
    RaceConsults(w, a, b, invocation);
    RaceComputes(Next(Next(w, Begin(a, invocation, None, None)), Begin(b, invocation, None, None)), a, b, invocation, payload);
  }

  lemma RaceFinish(w: World, a: string, b: string, invocation: InvocationPlan, payload: Bytes, now: int)
    requires ValidStore(w.store) && |payload| <= w.store.maxBytes && a in w.agents && b in w.agents && a != b
    requires w.agents[a].phase == Publishing(invocation, false, payload) && w.agents[a].manager.policy == LocalLayout
    ensures var w' := Next(w, Finish(a, None, now));
      && a in w'.agents && w'.agents[a].manager.stats.recomputes == w.agents[a].manager.stats.recomputes + 1
      && b in w'.agents && w'.agents[b] == w.agents[b]
      && ValidStore(w'.store) && w'.store.maxBytes == w.store.maxBytes
      && VersionOf(w'.store, KeyOf(LocalLayout, invocation)) == VersionOf(w.store, KeyOf(LocalLayout, invocation)) + 1
  {
    FinishRecompute(w.agents[a], w.store, invocation, payload, now);
  }

  lemma RaceConsults(w: World, a: string, b: string, invocation: InvocationPlan)
    requires Initial(w) && a in w.agents && b in w.agents && a != b
    requires w.agents[a].manager.policy == w.agents[b].manager.policy == LocalLayout
    ensures var w' := Next(Next(w, Begin(a, invocation, None, None)), Begin(b, invocation, None, None));
      && w'.store == w.store && a in w'.agents && b in w'.agents
      && w'.agents[a] == w.agents[a].(phase := Computing(invocation, false))
      && w'.agents[b] == w.agents[b].(phase := Computing(invocation, false))
  {
  }

  lemma RaceComputes(w: World, a: string, b: string, invocation: InvocationPlan, payload: Bytes)
    requires a in w.agents && b in w.agents && a != b
    requires w.agents[a].phase == w.agents[b].phase == Computing(invocation, false)
    ensures var w' := Next(Next(w, Compute(a, payload)), Compute(b, payload));
      && w'.store == w.store && a in w'.agents && b in w'.agents
      && w'.agents[a] == w.agents[a].(phase := Publishing(invocation, false, payload))
      && w'.agents[b] == w.agents[b].(phase := Publishing(invocation, false, payload))
  {
  }

  lemma FoldSix<S, E>(step: (S, E) -> S, s: S, e: seq<E>)
    requires |e| == 6
    ensures Fold(step, s, e) == step(step(step(step(step(step(s, e[0]), e[1]), e[2]), e[3]), e[4]), e[5])
  {
    assert e[..0] == [] && e[..6] == e;
    FoldThree(step, s, e, 0);
    FoldThree(step, s, e, 3);
  }

  lemma RaceUnrolled(w: World, e: seq<Event>)
    requires |e| == 6
    ensures RunWorld(w, e) == Next(Next(Next(Next(Next(Next(w, e[0]), e[1]), e[2]), e[3]), e[4]), e[5])
  {
    RunIsFold(w, e);
    FoldSix(Next, w, e);
  }
}
