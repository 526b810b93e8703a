/** The control plane: planning a request over the serving instances, and dispatching acquires to their managers. */
module Runtime {
  import opened Wrappers
  import opened Ordering
  import opened Json
  import opened Topology
  import opened TopologyTheorems
  import opened Identity
  import opened Store
  import opened Manager
  import Utf8
  import opened Arithmetic

  datatype TopologyRequest = TopologyRequest(requestId: string, graph: GraphSpec)

  datatype InvocationPlan = InvocationPlan(
    requestId: string,
    graphDigest: GraphDigest,
    role: Role,
    instance: string,
    layout: LayoutIdentity)

  datatype Placement = Stable | RoundRobin

  datatype SetupError = BadInstances | BadPlacement

  datatype RuntimeError = UnknownInstance(instance: string) | AcquireFailed(error: AcquireError)

  // ---------- placement ----------

  /** The sum of the bytes of a character's UTF-8 encoding (section 3 of RFC 3629). */
  function Utf8Sum(c: char): nat {
    var n := c as int;
    if n < 0x80 then n
    else if n < 0x800 then 0xC0 + n / 0x40 + 0x80 + n % 0x40
    else if n < 0x10000 then 0xE0 + n / 0x1000 + 0x80 + n / 0x40 % 0x40 + 0x80 + n % 0x40
    else 0xF0 + n / 0x40000 + 0x80 + n / 0x1000 % 0x40 + 0x80 + n / 0x40 % 0x40 + 0x80 + n % 0x40
  }

  function Weight(role: Role): nat {
    if role == "" then 0 else Utf8Sum(role[0]) + Weight(role[1..])
  }

  function Place(role: Role, placement: Placement, position: int, repetition: int, n: nat): (index: nat)
    requires n > 0
    ensures index < n
  {
    var base := Weight(role) % n;
    if placement.RoundRobin? then (base + position + repetition) % n else base
  }

  /** A character's weight is the sum of its bytes. */
  lemma CharWeight(c: char)
    ensures Utf8Sum(c) == Utf8.ByteSum(Utf8.EncodeChar(c))
  {
    var b := Utf8.EncodeChar(c);
    if |b| == 1 {
      Utf8.ByteSumOne(b[0]);
    } else {
      Utf8.ByteSumSmall(b[0], b[1], if |b| > 2 then b[2] else 0, if |b| > 3 then b[3] else 0);
    }
  }

  lemma {:induction false} WeightIsByteSum(role: Role)
    ensures Weight(role) == Utf8.ByteSum(Utf8.Encode(role))
  {
    if role != "" {
      CharWeight(role[0]);
      WeightIsByteSum(role[1..]);
      Utf8.ByteSumAppend(Utf8.EncodeChar(role[0]), Utf8.Encode(role[1..]));
    }
  }

  lemma {:induction false} ModAdd(x: int, y: int, n: int)
    requires n > 0
    ensures (x % n + y) % n == (x + y) % n
  {
    var q, p := x / n, (x % n + y) / n;
    assert x + y == n * (q + p) + (x % n + y) % n by {
      assert x == n * q + x % n && x % n + y == n * p + (x % n + y) % n;
      assert n * (q + p) == n * q + n * p;
    }
    ModOf(x + y, q + p, (x % n + y) % n, n);
  }

  lemma {:induction false} PlaceIsByteSum(role: Role, placement: Placement, position: int, repetition: int, n: nat)
    requires n > 0
    ensures var sum := Utf8.ByteSum(Utf8.Encode(role));
      && (placement.Stable? ==> Place(role, placement, position, repetition, n) == sum % n)
      && (placement.RoundRobin? ==> Place(role, placement, position, repetition, n) == (sum + position + repetition) % n)
  {
    WeightIsByteSum(role);
    ModAdd(Weight(role), position + repetition, n);
  }

  /**
   Every planned role is placed by the sum of the bytes of its UTF-8 encoding, shifted under
   round robin by the request's position and the repetition.
   */
  lemma PlacementExactly(request: TopologyRequest, order: seq<Role>, model: string, placement: Placement, instances: seq<string>,
                         position: int, repetition: int, i: nat)
    requires instances != [] && i < |order| && forall role :: role in order ==> role in request.graph.activeRoles
    ensures var plan := PlanRoles(request, order, model, placement, instances, position, repetition)[i];
      var sum, n := Utf8.ByteSum(Utf8.Encode(order[i])), |instances|;
      && plan.role == order[i]
      && (placement.Stable? ==> plan.instance == instances[sum % n])
      && (placement.RoundRobin? ==> plan.instance == instances[(sum + position + repetition) % n])
  {
    PlaceIsByteSum(order[i], placement, position, repetition, |instances|);
  }

  /** Over any n consecutive values of position + repetition, a role visits each of the n instances exactly once. */
  lemma RoundRobinBalance(role: Role, n: nat, start: int, index: nat) returns (k: nat)
    requires index < n
    ensures k < n
    ensures forall position, repetition :: start <= position + repetition < start + n ==>
      (Place(role, RoundRobin, position, repetition, n) == index <==> position + repetition == start + k)
  {
    var offset := Weight(role) % n + start;
    k := (index - offset) % n;
    ModShift(offset, k, n, index);
    forall position, repetition | start <= position + repetition < start + n
      ensures Place(role, RoundRobin, position, repetition, n) == index <==> position + repetition == start + k
    {
      var j := position + repetition - start;
      assert Weight(role) % n + position + repetition == offset + j;
      if (offset + j) % n == (offset + k) % n {
        ModUnique(offset, j, k, n);
      }
    }
  }

  lemma {:induction false} ModShift(offset: int, k: nat, n: nat, index: nat)
    requires index < n && k == (index - offset) % n
    ensures (offset + k) % n == index
  {
    var q := (index - offset) / n;
    assert index - offset == n * q + k;
    ModOf(offset + k, -q, index, n);
  }

  lemma {:induction false} ModOf(x: int, q: int, r: int, n: int)
    requires 0 <= r < n && x == n * q + r
    ensures x % n == r
  {
    QuotientUnique(n, q, r, x / n, x % n);
  }

  lemma {:induction false} ModUnique(offset: int, j: nat, k: nat, n: nat)
    requires j < n && k < n && (offset + j) % n == (offset + k) % n
    ensures j == k
  {
    var q, q' := (offset + j) / n, (offset + k) / n;
    assert n * (q - q') == n * q - n * q' == j - k;
    assert n * (q' - q) == k - j;
    if q > q' {
      MulAtLeast(n, q - q');
    } else if q < q' {
      MulAtLeast(n, q' - q);
    }
  }

  // ---------- planning ----------

  function PlanRole(request: TopologyRequest, role: Role, model: string, placement: Placement, instances: seq<string>,
                    position: int, repetition: int): InvocationPlan
    requires instances != [] && role in request.graph.activeRoles
  {
    InvocationPlan(request.requestId, Digest(request.graph), role,
                   instances[Place(role, placement, position, repetition, |instances|)],
                   LayoutOf(request.graph, role, model, map[]))
  }

  function PlanRoles(request: TopologyRequest, order: seq<Role>, model: string, placement: Placement, instances: seq<string>,
                     position: int, repetition: int): (plans: seq<InvocationPlan>)
    requires instances != [] && forall role :: role in order ==> role in request.graph.activeRoles
    ensures |plans| == |order|
    ensures forall i :: 0 <= i < |order| ==>
      plans[i] == PlanRole(request, order[i], model, placement, instances, position, repetition)
  {
    seq(|order|, i requires 0 <= i < |order| => PlanRole(request, order[i], model, placement, instances, position, repetition))
  }

  lemma PlanRolesGrow(request: TopologyRequest, order: seq<Role>, i: nat, model: string, placement: Placement,
                      instances: seq<string>, position: int, repetition: int)
    requires instances != [] && i < |order| && forall role :: role in order ==> role in request.graph.activeRoles
    ensures PlanRoles(request, order[..i + 1], model, placement, instances, position, repetition) ==
            PlanRoles(request, order[..i], model, placement, instances, position, repetition) +
            [PlanRole(request, order[i], model, placement, instances, position, repetition)]
  {
  }

  lemma PlannedRole(request: TopologyRequest, role: Role, model: string, placement: Placement, instances: seq<string>,
                    position: int, repetition: int)
    requires instances != [] && Order(request.graph).Ok? && role in request.graph.activeRoles
    ensures role in LayoutTable(request.graph, model, map[]).value
    ensures PlanRole(request, role, model, placement, instances, position, repetition) ==
      InvocationPlan(request.requestId, Digest(request.graph), role,
                     instances[Place(role, placement, position, repetition, |instances|)],
                     LayoutTable(request.graph, model, map[]).value[role])
  {
    LayoutTableCovers(request.graph, model, map[]);
  }

  lemma PlansInOrder(request: TopologyRequest, order: seq<Role>, model: string, placement: Placement, instances: seq<string>,
                     position: int, repetition: int)
    requires instances != [] && forall role :: role in order ==> role in request.graph.activeRoles
    ensures var plans := PlanRoles(request, order, model, placement, instances, position, repetition);
      |plans| == |order| && forall i :: 0 <= i < |order| ==> plans[i].role == order[i]
  {
  }

  /** An accepted request is planned as its active roles, each exactly once. */
  lemma PlanCovers(request: TopologyRequest, model: string, placement: Placement, instances: seq<string>,
                   position: int, repetition: int)
    requires instances != [] && Order(request.graph).Ok?
    ensures forall role :: role in Order(request.graph).value ==> role in request.graph.activeRoles
    ensures var plans := PlanRoles(request, Order(request.graph).value, model, placement, instances, position, repetition);
      && (forall role :: role in request.graph.activeRoles ==> exists i :: 0 <= i < |plans| && plans[i].role == role)
      && (forall i, j :: 0 <= i < j < |plans| ==> plans[i].role != plans[j].role)
  {
    var order := Order(request.graph).value;
    OrderIsLeast(request.graph);
    OrderRoles(request.graph);
    var plans := PlanRoles(request, order, model, placement, instances, position, repetition);
    PlansInOrder(request, order, model, placement, instances, position, repetition);
    forall role | role in request.graph.activeRoles ensures exists i :: 0 <= i < |plans| && plans[i].role == role {
      var i :| 0 <= i < |order| && order[i] == role;
      assert plans[i].role == role;
    }
  }

  /** Every planned invocation is of an active role, on an existing instance, with that role's own layout and graph. */
  lemma PlanEntries(request: TopologyRequest, order: seq<Role>, model: string, placement: Placement, instances: seq<string>,
                    position: int, repetition: int)
    requires instances != [] && forall role :: role in order ==> role in request.graph.activeRoles
    ensures forall p :: p in PlanRoles(request, order, model, placement, instances, position, repetition) ==>
      && p.instance in instances
      && p.role in request.graph.activeRoles
      && p.layout == LayoutOf(request.graph, p.role, model, map[])
      && p.graphDigest == Digest(request.graph) && p.requestId == request.requestId
  {
  }

  /** A role is planned after every one of its predecessors. */
  lemma {:induction false} PlanFollowsEdges(request: TopologyRequest, model: string, placement: Placement, instances: seq<string>,
                         position: int, repetition: int, i: nat, j: nat)
    requires instances != [] && Order(request.graph).Ok?
    requires forall role :: role in Order(request.graph).value ==> role in request.graph.activeRoles
    requires i < |Order(request.graph).value| && j < |Order(request.graph).value|
    ensures var plans := PlanRoles(request, Order(request.graph).value, model, placement, instances, position, repetition);
      Edge(plans[i].role, plans[j].role) in request.graph.edges ==> i < j
  {
    OrderIsLeast(request.graph);
    var order := Order(request.graph).value;
    assert Edge(order[i], order[j]) in Elements(request.graph.edges) ==> i < j;
  }

  // ---------- the runtime as a value ----------

  const MAX_LOCAL_ENTRIES := 64

  datatype RuntimeState = RuntimeState(managers: map<string, ManagerState>, store: StoreState)

  ghost predicate ValidRuntime(r: RuntimeState) {
    ValidStore(r.store) && forall i :: i in r.managers ==> ValidManager(r.managers[i])
  }

  /** One complete acquire, with nothing else happening in between. */
  function RuntimeAcquire(r: RuntimeState, invocation: InvocationPlan, computed: Option<Bytes>, metadata: JsonObject, now: int)
    : (RuntimeState, Result<AccessResult, RuntimeError>)
  {
    if invocation.instance !in r.managers then (r, Err(UnknownInstance(invocation.instance)))
    else
      var m := r.managers[invocation.instance];
      var key := StateKey(m.policy, invocation.layout, invocation.requestId, invocation.graphDigest);
      var (m', store', result) := ManagerAcquire(m, Some(r.store), key, computed, Some(metadata), None, None, now);
      (RuntimeState(r.managers[invocation.instance := m'], if store'.Some? then store'.value else r.store),
       match result case Ok(access) => Ok(access) case Err(error) => Err(AcquireFailed(error)))
  }

  function FreshRuntime(policy: Policy, instances: seq<string>, maxLocalEntries: nat, store: StoreState): RuntimeState {
    RuntimeState(map i | i in instances :: FreshManager(policy, maxLocalEntries), store)
  }

  // ---------- the runtime object ----------

  method StartManagers(store: MemoryStateStore, policy: Policy, instances: seq<string>)
    returns (managers: map<string, LayoutStateManager>)
    requires store.Valid() && Distinct(instances)
    ensures managers.Keys == Elements(instances)
    ensures forall i, j :: i in managers && j in managers && i != j ==> managers[i] != managers[j]
    ensures forall i :: i in managers ==>
      && fresh(managers[i])
      && managers[i].remoteStore == store
      && managers[i].fetchAdmission.None?
      && managers[i].State() == FreshManager(policy, MAX_LOCAL_ENTRIES)
  {
    managers := map[];
    for n := 0 to |instances|
      invariant managers.Keys == Elements(instances[..n])
      invariant forall i, j :: i in managers && j in managers && i != j ==> managers[i] != managers[j]
      invariant forall i :: i in managers ==>
        && fresh(managers[i])
        && managers[i].remoteStore == store
        && managers[i].fetchAdmission.None?
        && managers[i].State() == FreshManager(policy, MAX_LOCAL_ENTRIES)
    {
      var manager := new LayoutStateManager(store, policy, MAX_LOCAL_ENTRIES, None);
      ElementsGrow(instances, n);
      managers := managers[instances[n] := manager];
    }
    assert instances[..|instances|] == instances;
  }

  lemma AcquireIs(r: RuntimeState, invocation: InvocationPlan, computed: Option<Bytes>, metadata: JsonObject, now: int,
                  m: ManagerState, s: StoreState, access: Result<AccessResult, AcquireError>)
    requires invocation.instance in r.managers
    requires var before := r.managers[invocation.instance];
      ManagerAcquire(before, Some(r.store), StateKey(before.policy, invocation.layout, invocation.requestId, invocation.graphDigest),
                     computed, Some(metadata), None, None, now) == (m, Some(s), access)
    ensures RuntimeAcquire(r, invocation, computed, metadata, now) ==
      (RuntimeState(r.managers[invocation.instance := m], s),
       match access case Ok(value) => Ok(value) case Err(error) => Err(AcquireFailed(error)))
  {
  }

  class DynamicKVRuntime {
    const store: MemoryStateStore
    const model: string
    const policy: Policy
    const placement: Placement
    const instances: seq<string>
    const hexDigest: LayoutDigest -> string
    var managers: map<string, LayoutStateManager>

    ghost function Managers(): set<LayoutStateManager>
      reads this
    {
      set i | i in managers :: managers[i]
    }

    /** Each instance has its own manager, and all of them share the one store. */
    ghost predicate Valid()
      reads this, store, Managers()
    {
      && instances != [] && store.Valid()
      && managers.Keys == Elements(instances)
      && (forall i, j :: i in managers && j in managers && i != j ==> managers[i] != managers[j])
      && (forall i :: i in managers ==>
            && managers[i].remoteStore == store
            && managers[i].fetchAdmission.None?
            && ValidManager(managers[i].State()))
    }

    ghost function State(): RuntimeState
      reads this, store, Managers()
    {
      RuntimeState(map i | i in managers :: managers[i].State(), store.State())
    }

    constructor (store: MemoryStateStore, model: string, policy: Policy, placement: Placement, instances: seq<string>,
                 hexDigest: LayoutDigest -> string)
      requires instances != [] && Distinct(instances) && store.Valid()
      ensures Valid() && this.store == store && this.instances == instances && this.placement == placement
      ensures State() == FreshRuntime(policy, instances, MAX_LOCAL_ENTRIES, store.State())
      ensures fresh(Managers())
    {
      this.store := store;
      this.model := model;
      this.policy := policy;
      this.placement := placement;
      this.instances := instances;
      this.hexDigest := hexDigest;
      var started := StartManagers(store, policy, instances);
      managers := started;
      new;
      assert State().managers == FreshRuntime(policy, instances, MAX_LOCAL_ENTRIES, store.State()).managers;
    }

    /** The constructor call with its argument checks. */
    static method Create(store: MemoryStateStore, model: string, policy: Policy, placement: string, instances: seq<string>,
                         hexDigest: LayoutDigest -> string)
      returns (runtime: Option<DynamicKVRuntime>, error: Option<SetupError>)
      requires store.Valid()
      ensures error == Some(BadInstances) <==> instances == [] || !Distinct(instances)
      ensures error == Some(BadPlacement) <==>
        instances != [] && Distinct(instances) && placement != "stable" && placement != "round_robin"
      ensures error == None <==> runtime.Some?
      ensures runtime.Some? ==> fresh(runtime.value) && runtime.value.Valid()
      ensures runtime.Some? ==> runtime.value.placement == if placement == "round_robin" then RoundRobin else Stable
      ensures runtime.Some? ==> runtime.value.State() == FreshRuntime(policy, instances, 64, store.State())
    {
      DistinctSize(instances);
      if instances == [] || |Elements(instances)| != |instances| {
        return None, Some(BadInstances);
      }
      if placement != "stable" && placement != "round_robin" {
        return None, Some(BadPlacement);
      }
      var created := new DynamicKVRuntime(store, model, policy, if placement == "round_robin" then RoundRobin else Stable,
                                          instances, hexDigest);
      return Some(created), None;
    }

    /** Appends one invocation per role, in topological order. */
    method Plan(request: TopologyRequest, position: int, repetition: int) returns (r: Result<seq<InvocationPlan>, GraphError>)
      requires Valid()
      ensures r.Err? <==> Order(request.graph).Err?
      ensures r.Err? ==> r.error == Order(request.graph).error
      ensures r.Ok? ==>
        && (forall role :: role in Order(request.graph).value ==> role in request.graph.activeRoles)
        && r.value == PlanRoles(request, Order(request.graph).value, model, placement, instances, position, repetition)
    {
      var layouts := LayoutsForGraph(request.graph, model, map[]);
      var order := TopologicalOrder(request.graph);
      if layouts.Err? {
        return Err(layouts.error);
      }
      OrderRoles(request.graph);
      var plans: seq<InvocationPlan> := [];
      for i := 0 to |order.value|
        invariant plans == PlanRoles(request, order.value[..i], model, placement, instances, position, repetition)
      {
        var role := order.value[i];
        PlannedRole(request, role, model, placement, instances, position, repetition);
        var index := Place(role, placement, position, repetition, |instances|);
        var plan := InvocationPlan(request.requestId, Digest(request.graph), role, instances[index], layouts.value[role]);
        PlanRolesGrow(request, order.value, i, model, placement, instances, position, repetition);
        plans := plans + [plan];
      }
      assert order.value[..|order.value|] == order.value;
      return Ok(plans);
    }

    /** The addressed manager's acquire; the other managers stay as they are. */
    method Delegate(invocation: InvocationPlan, computed: Option<Bytes>, metadata: JsonObject, now: int)
      returns (access: Result<AccessResult, AcquireError>)
      requires Valid() && invocation.instance in managers
      modifies Managers(), store
      ensures Valid() && managers == old(managers)
      ensures State().managers == old(State()).managers[invocation.instance := managers[invocation.instance].State()]
      ensures (managers[invocation.instance].State(), Some(store.State()), access) ==
        ManagerAcquire(old(managers[invocation.instance].State()), Some(old(store.State())),
                       StateKey(old(managers[invocation.instance].policy), invocation.layout, invocation.requestId,
                                invocation.graphDigest),
                       computed, Some(metadata), None, None, now)
    {
      var manager := managers[invocation.instance];
      access := manager.Acquire(invocation.layout, invocation.requestId, invocation.graphDigest, computed, None,
                                Some(metadata), now);
    }

    method Acquire(invocation: InvocationPlan, computed: Option<Bytes>, metadata: Option<JsonObject>, now: int)
      returns (result: Result<AccessResult, RuntimeError>)
      requires Valid()
      modifies Managers(), store
      ensures Valid() && managers == old(managers)
      ensures (State(), result) ==
        RuntimeAcquire(old(State()), invocation, computed, InvocationMetadata(invocation, hexDigest, metadata), now)
    {
      if invocation.instance !in managers {
        return Err(UnknownInstance(invocation.instance));
      }
      var merged := InvocationMetadata(invocation, hexDigest, metadata);
      ghost var before := State();
      var access := Delegate(invocation, computed, merged, now);
      AcquireIs(before, invocation, computed, merged, now, managers[invocation.instance].State(), store.State(), access);
      return match access case Ok(value) => Ok(value) case Err(error) => Err(AcquireFailed(error));
    }
  }

  function InvocationMetadata(invocation: InvocationPlan, hexDigest: LayoutDigest -> string, metadata: Option<JsonObject>): JsonObject {
    map["request_id" := JStr(invocation.requestId), "role" := JStr(invocation.role), "instance" := JStr(invocation.instance),
        "layout" := JStr(hexDigest(invocation.layout.digest))] + OrEmpty(metadata)
  }

  /** The record's metadata name the request, role, instance and layout, unless the caller names them otherwise; the rest is the caller's. */
  lemma InvocationMetadataExactly(invocation: InvocationPlan, hexDigest: LayoutDigest -> string, metadata: Option<JsonObject>)
    ensures var merged := InvocationMetadata(invocation, hexDigest, metadata);
      var given := if metadata.Some? then metadata.value else map[];
      && merged.Keys == given.Keys + {"request_id", "role", "instance", "layout"}
      && (forall name :: name in given ==> merged[name] == given[name])
      && ("request_id" !in given ==> merged["request_id"] == JStr(invocation.requestId))
      && ("role" !in given ==> merged["role"] == JStr(invocation.role))
      && ("instance" !in given ==> merged["instance"] == JStr(invocation.instance))
      && ("layout" !in given ==> merged["layout"] == JStr(hexDigest(invocation.layout.digest)))
  {
  }

  /** An acquire of an unknown instance is refused; of a known one it is that manager's, under its own policy, and no other moves. */
  lemma RuntimeAcquireExactly(r: RuntimeState, invocation: InvocationPlan, computed: Option<Bytes>, metadata: JsonObject, now: int)
    ensures var (r', result) := RuntimeAcquire(r, invocation, computed, metadata, now);
      var i := invocation.instance;
      && (i !in r.managers <==> result == Err(UnknownInstance(i)))
      && (i !in r.managers ==> r' == r)
      && r'.managers.Keys == r.managers.Keys
      && (forall j :: j in r.managers && j != i ==> r'.managers[j] == r.managers[j])
      && (i in r.managers ==>
            var m := r.managers[i];
            var key := StateKey(m.policy, invocation.layout, invocation.requestId, invocation.graphDigest);
            var (m', store', outcome) := ManagerAcquire(m, Some(r.store), key, computed, Some(metadata), None, None, now);
            && r'.managers[i] == m' && Some(r'.store) == store'
            && (outcome.Ok? ==> result == Ok(outcome.value)) && (outcome.Err? ==> result == Err(AcquireFailed(outcome.error))))
  {
  }
}
