/**
 One serving instance's cache manager: local tables, remote fetch, safe recomputation.

 `Consult` is everything an acquire does before it computes (its only shared step is one
 store get); `Settle` is everything it does afterwards (its only shared step is one store
 put).  Computation happens between the two.  What the caller's compute function returns, or
 that it raises, is a parameter.
 */
module Manager {
  import opened Wrappers
  import opened Ordering
  import opened Json
  import opened Identity
  import opened Store

  datatype Policy = Reset | WholeGraph | LocalLayout

  datatype Decision = LocalHit | RemoteHit | Recompute | RemoteRejected

  datatype AccessResult = AccessResult(decision: Decision, key: Key, payload: Bytes, transferBytes: nat, version: int)

  datatype ManagerStats = ManagerStats(
    localHits: nat, remoteHits: nat, recomputes: nat, remoteRejected: nat, bytesLoaded: nat, bytesStored: nat)

  /** Why an acquire raised: the compute function did, or the store refused the publication. */
  datatype AcquireError = ComputeRaised | NotPublished(error: StoreError)

  const NO_STATS := ManagerStats(0, 0, 0, 0, 0, 0)

  /** The optional rule deciding whether a remote record is worth fetching. */
  type Admission = (StateRecord, Option<int>) -> bool

  function StateKey(policy: Policy, layout: LayoutIdentity, requestId: string, graph: GraphDigest): Key {
    match policy
    case Reset => RequestKey(requestId, layout.spec.consumerRole)
    case WholeGraph => GraphKey(graph, layout.spec.consumerRole)
    case LocalLayout => LayoutKey(layout.digest)
  }

  // ---------- local tables ----------

  datatype ManagerState = ManagerState(
    policy: Policy,
    maxLocalEntries: nat,
    local: map<Key, StateRecord>,
    localOrder: seq<Key>,
    stats: ManagerStats)

  /** The dictionary and the list describe the same bounded set of keys. */
  ghost predicate ValidManager(m: ManagerState) {
    && m.maxLocalEntries > 0
    && Distinct(m.localOrder) && |m.localOrder| <= m.maxLocalEntries
    && Elements(m.localOrder) == m.local.Keys
    && forall k :: k in m.local ==> m.local[k].key == k
  }

  function FreshManager(policy: Policy, maxLocalEntries: nat): ManagerState {
    ManagerState(policy, maxLocalEntries, map[], [], NO_STATS)
  }

  function RemoveFirst(order: seq<Key>, key: Key): (r: seq<Key>)
    ensures |order| - 1 <= |r| <= |order|
    ensures forall x :: x in r ==> x in order
    ensures forall x :: x in order && x != key ==> x in r
    ensures Distinct(order) ==> Distinct(r) && key !in r && (|r| == |order| <==> key !in order)
  {
    if order == [] then []
    else if order[0] == key then
      assert order == [order[0]] + order[1..];
      order[1..]
    else
      assert order == [order[0]] + order[1..];
      var rest := RemoveFirst(order[1..], key);
      assert Distinct(order) ==> order[0] !in order[1..];
      [order[0]] + rest
  }

  function Touch(order: seq<Key>, key: Key): seq<Key> {
    RemoveFirst(order, key) + [key]
  }

  /** The least recent keys beyond the bound leave both tables. */
  function TrimOrder(order: seq<Key>, limit: nat): seq<Key> {
    if |order| > limit then order[|order| - limit..] else order
  }

  function Restrict(local: map<Key, StateRecord>, order: seq<Key>): map<Key, StateRecord> {
    map k | k in local && k in order :: local[k]
  }

  function Remember(m: ManagerState, record: StateRecord): ManagerState
  {
    var order := TrimOrder(Touch(m.localOrder, record.key), m.maxLocalEntries);
    var local := m.local[record.key := record];
    m.(local := Restrict(local, order), localOrder := order)
  }

  // ---------- the two halves of an acquire ----------

  datatype Answer = Hit(result: AccessResult) | Miss(rejected: bool)

  predicate Admitted(admission: Option<Admission>, record: StateRecord, estimate: Option<int>) {
    admission.None? || admission.value(record, estimate)
  }

  function LocallyHit(m: ManagerState, key: Key): ManagerState {
    m.(localOrder := Touch(m.localOrder, key), stats := m.stats.(localHits := m.stats.localHits + 1))
  }

  function RemotelyHit(m: ManagerState, record: StateRecord): ManagerState
  {
    Remember(m, record).(stats := m.stats.(remoteHits := m.stats.remoteHits + 1,
                                           bytesLoaded := m.stats.bytesLoaded + |record.payload|))
  }

  function Rejecting(m: ManagerState): ManagerState {
    m.(stats := m.stats.(remoteRejected := m.stats.remoteRejected + 1))
  }

  /** The decision on what the remote store returned. */
  function Decide(m: ManagerState, key: Key, found: Option<StateRecord>, admission: Option<Admission>, estimate: Option<int>)
    : (ManagerState, Answer)
  {
    match found
    case None => (m, Miss(false))
    case Some(record) =>
      if Admitted(admission, record, estimate) then
        (RemotelyHit(m, record), Hit(AccessResult(RemoteHit, key, record.payload, |record.payload|, record.version)))
      else (Rejecting(m), Miss(true))
  }

  function Consult(m: ManagerState, store: Option<StoreState>, key: Key, admission: Option<Admission>, estimate: Option<int>)
    : (ManagerState, Option<StoreState>, Answer)
  {
    if key in m.local then
      (LocallyHit(m, key), store, Hit(AccessResult(LocalHit, key, m.local[key].payload, 0, m.local[key].version)))
    else match store
      case None => (m, None, Miss(false))
      case Some(s) =>
        var (s', found) := StoreGet(s, key);
        var (m', answer) := Decide(m, key, found, admission, estimate);
        (m', Some(s'), answer)
  }

  function Recomputed(m: ManagerState, record: StateRecord, stored: nat): ManagerState
  {
    Remember(m, record).(stats := m.stats.(recomputes := m.stats.recomputes + 1, bytesStored := m.stats.bytesStored + stored))
  }

  function Settle(m: ManagerState, store: Option<StoreState>, key: Key, rejected: bool, payload: Bytes,
                  metadata: Option<JsonObject>, now: int)
    : (ManagerState, Option<StoreState>, Result<AccessResult, StoreError>)
  {
    var decision := if rejected then RemoteRejected else Recompute;
    match store
    case None =>
      (Recomputed(m, StateRecord(key, 1, payload, OrEmpty(metadata), now), 0), None,
       Ok(AccessResult(decision, key, payload, 0, 1)))
    case Some(s) =>
      var (s', put) := StorePut(s, key, payload, OrEmpty(metadata), None, now);
      match put
      case Err(error) => (m, Some(s'), Err(error))
      case Ok(record) =>
        (Recomputed(m, record, |payload|), Some(s'), Ok(AccessResult(decision, key, payload, 0, record.version)))
  }

  function AcquireReset(m: ManagerState, key: Key, payload: Bytes): (ManagerState, AccessResult) {
    (m.(stats := m.stats.(recomputes := m.stats.recomputes + 1)), AccessResult(Recompute, key, payload, 0, 0))
  }

  function Settled(outcome: Result<AccessResult, StoreError>): Result<AccessResult, AcquireError> {
    match outcome case Ok(result) => Ok(result) case Err(error) => Err(NotPublished(error))
  }

  /** `computed` is what the compute function returns if it is called, or nothing if it raises. */
  function ManagerAcquire(m: ManagerState, store: Option<StoreState>, key: Key, computed: Option<Bytes>, metadata: Option<JsonObject>,
                   admission: Option<Admission>, estimate: Option<int>, now: int)
    : (ManagerState, Option<StoreState>, Result<AccessResult, AcquireError>)
  {
    if m.policy == Reset then
      match computed
      case None => (m, store, Err(ComputeRaised))
      case Some(payload) =>
        var (m', result) := AcquireReset(m, key, payload);
        (m', store, Ok(result))
    else
      var (m', store', answer) := Consult(m, store, key, admission, estimate);
      match (answer, computed)
      case (Hit(result), _) => (m', store', Ok(result))
      case (Miss(_), None) => (m', store', Err(ComputeRaised))
      case (Miss(rejected), Some(payload)) =>
        var (m'', store'', outcome) := Settle(m', store', key, rejected, payload, metadata, now);
        (m'', store'', Settled(outcome))
  }

  // ---------- the manager object ----------

  class LayoutStateManager {
    const remoteStore: MemoryStateStore?
    const policy: Policy
    const maxLocalEntries: nat
    const fetchAdmission: Option<Admission>
    var local: map<Key, StateRecord>
    var localOrder: seq<Key>
    var stats: ManagerStats

    ghost function State(): ManagerState
      reads this
    {
      ManagerState(policy, maxLocalEntries, local, localOrder, stats)
    }

    ghost function Remote(): Option<StoreState>
      reads this, remoteStore
    {
      if remoteStore == null then None else Some(remoteStore.State())
    }

    ghost predicate Valid()
      reads this, remoteStore
    {
      ValidManager(State()) && (remoteStore != null ==> remoteStore.Valid())
    }

    constructor (remoteStore: MemoryStateStore?, policy: Policy, maxLocalEntries: int, fetchAdmission: Option<Admission>)
      requires maxLocalEntries > 0
      requires remoteStore != null ==> remoteStore.Valid()
      ensures Valid() && State() == FreshManager(policy, maxLocalEntries)
      ensures this.remoteStore == remoteStore && this.fetchAdmission == fetchAdmission
    {
      this.remoteStore := remoteStore;
      this.policy := policy;
      this.maxLocalEntries := maxLocalEntries;
      this.fetchAdmission := fetchAdmission;
      local := map[];
      localOrder := [];
      stats := NO_STATS;
    }

    /** The constructor call with its argument check. */
    static method Create(remoteStore: MemoryStateStore?, policy: Policy, maxLocalEntries: int, fetchAdmission: Option<Admission>)
      returns (manager: Option<LayoutStateManager>)
      requires remoteStore != null ==> remoteStore.Valid()
      ensures manager == None <==> maxLocalEntries <= 0
      ensures manager.Some? ==> fresh(manager.value) && manager.value.Valid()
      ensures manager.Some? ==> manager.value.State() == FreshManager(policy, maxLocalEntries)
      ensures manager.Some? ==> manager.value.remoteStore == remoteStore
    {
      if maxLocalEntries <= 0 {
        return None;
      }
      var created := new LayoutStateManager(remoteStore, policy, maxLocalEntries, fetchAdmission);
      return Some(created);
    }

    /** `computed` is what the caller's compute function returns if it is called, or nothing if it raises. */
    method Acquire(layout: LayoutIdentity, requestId: string, graphDigest: GraphDigest, computed: Option<Bytes>,
                   estimate: Option<int>, metadata: Option<JsonObject>, now: int)
      returns (result: Result<AccessResult, AcquireError>)
      requires Valid()
      modifies this, remoteStore
      ensures Valid()
      ensures (State(), Remote(), result) ==
        ManagerAcquire(old(State()), old(Remote()), StateKey(policy, layout, requestId, graphDigest),
                        computed, metadata, fetchAdmission, estimate, now)
    {
      var key := StateKey(policy, layout, requestId, graphDigest);
      if policy == Reset {
        if computed == None {
          return Err(ComputeRaised);
        }
        stats := stats.(recomputes := stats.recomputes + 1);
        return Ok(AccessResult(Recompute, key, computed.value, 0, 0));
      }
      var answer := ConsultStores(key, estimate);
      if answer.Hit? {
        return Ok(answer.result);
      }
      if computed == None {
        return Err(ComputeRaised);
      }
      var outcome := SettleMiss(key, answer.rejected, computed.value, metadata, now);
      return Settled(outcome);
    }

    method ConsultStores(key: Key, estimate: Option<int>) returns (answer: Answer)
      requires Valid()
      modifies this, remoteStore
      ensures Valid()
      ensures (State(), Remote(), answer) == Consult(old(State()), old(Remote()), key, fetchAdmission, estimate)
    {
      ConsultValid(State(), Remote(), key, fetchAdmission, estimate);
      if key in local {
        var record := local[key];
        TouchKey(key);
        stats := stats.(localHits := stats.localHits + 1);
        return Hit(AccessResult(LocalHit, key, record.payload, 0, record.version));
      }
      var remote := None;
      if remoteStore != null {
        remote := remoteStore.Get(key);
      }
      answer := DecideOn(key, remote, estimate);
    }

    method DecideOn(key: Key, remote: Option<StateRecord>, estimate: Option<int>) returns (answer: Answer)
      requires ValidManager(State())
      modifies this
      ensures (State(), answer) == Decide(old(State()), key, remote, fetchAdmission, estimate)
    {
      if remote == None {
        return Miss(false);
      }
      var accepted := fetchAdmission.None? || fetchAdmission.value(remote.value, estimate);
      if accepted {
        RememberRecord(remote.value);
        stats := stats.(remoteHits := stats.remoteHits + 1, bytesLoaded := stats.bytesLoaded + |remote.value.payload|);
        return Hit(AccessResult(RemoteHit, key, remote.value.payload, |remote.value.payload|, remote.value.version));
      }
      stats := stats.(remoteRejected := stats.remoteRejected + 1);
      return Miss(true);
    }

    method SettleMiss(key: Key, rejected: bool, payload: Bytes, metadata: Option<JsonObject>, now: int)
      returns (result: Result<AccessResult, StoreError>)
      requires Valid()
      modifies this, remoteStore
      ensures Valid()
      ensures (State(), Remote(), result) == Settle(old(State()), old(Remote()), key, rejected, payload, metadata, now)
    {
      SettleValid(State(), Remote(), key, rejected, payload, metadata, now);
      var record := StateRecord(key, 1, payload, OrEmpty(metadata), now);
      var stored := 0;
      if remoteStore != null {
        var put := remoteStore.Put(key, payload, Dictionary(OrEmpty(metadata)), None, now);
        if put.Err? {
          return Err(put.error);
        }
        record := put.value;
        stored := |payload|;
      }
      CountRecompute(record, stored);
      return Ok(AccessResult(if rejected then RemoteRejected else Recompute, key, payload, 0, record.version));
    }

    method CountRecompute(record: StateRecord, stored: nat)
      requires ValidManager(State())
      modifies this
      ensures State() == Recomputed(old(State()), record, stored)
    {
      stats := stats.(bytesStored := stats.bytesStored + stored);
      RememberRecord(record);
      stats := stats.(recomputes := stats.recomputes + 1);
    }

    method ClearLocal()
      modifies this
      ensures State() == old(State()).(local := map[], localOrder := [])
    {
      local := map[];
      localOrder := [];
    }

    method TouchKey(key: Key)
      modifies this`localOrder
      ensures localOrder == Touch(old(localOrder), key)
    {
      localOrder := RemoveFirst(localOrder, key);
      localOrder := localOrder + [key];
    }

    method RememberRecord(record: StateRecord)
      requires ValidManager(State())
      modifies this`local, this`localOrder
      ensures ValidManager(State()) && State() == Remember(old(State()), record)
    {
      RememberValid(State(), record);
      TouchDistinct(localOrder, record.key);
      local := local[record.key := record];
      TouchKey(record.key);
      EvictLocal();
    }

    /** The loop that drops the least recent keys from both tables. */
    method EvictLocal()
      requires maxLocalEntries > 0 && Distinct(localOrder) && local.Keys <= Elements(localOrder)
      modifies this`local, this`localOrder
      ensures localOrder == TrimOrder(old(localOrder), maxLocalEntries)
      ensures local == Restrict(old(local), localOrder)
    {
      ghost var order, all := localOrder, local;
      RestrictAll(all, order);
      while |localOrder| > maxLocalEntries
        invariant |TrimOrder(order, maxLocalEntries)| <= |localOrder| <= |order|
        invariant localOrder == order[|order| - |localOrder|..]
        invariant local == Restrict(all, localOrder)
      {
        RestrictTail(all, localOrder);
        var evicted := localOrder[0];
        assert localOrder[1..] == order[|order| - (|localOrder| - 1)..];
        localOrder := localOrder[1..];
        local := local - {evicted};
      }
    }
  }

  // ---------- the tables stay consistent ----------

  lemma TouchDistinct(order: seq<Key>, key: Key)
    requires Distinct(order)
    ensures Distinct(Touch(order, key)) && Elements(Touch(order, key)) == Elements(order) + {key}
  {
  }

  lemma RestrictTail(all: map<Key, StateRecord>, order: seq<Key>)
    requires order != [] && Distinct(order)
    ensures Restrict(all, order) - {order[0]} == Restrict(all, order[1..])
  {
  }

  lemma RestrictAll(all: map<Key, StateRecord>, order: seq<Key>)
    requires all.Keys <= Elements(order)
    ensures Restrict(all, order) == all
  {
  }

  lemma RememberValid(m: ManagerState, record: StateRecord)
    requires ValidManager(m)
    ensures ValidManager(Remember(m, record))
  {
  }

  lemma {:induction false} ConsultValid(m: ManagerState, store: Option<StoreState>, key: Key, admission: Option<Admission>, estimate: Option<int>)
    requires ValidManager(m)
    ensures ValidManager(Consult(m, store, key, admission, estimate).0)
  {
    if key in m.local {
      TouchDistinct(m.localOrder, key);
      assert key in Elements(m.localOrder);
    } else if store.Some? && Lookup(store.value.records, key).Some? {
      RememberValid(m, Lookup(store.value.records, key).value);
    }
  }

  lemma {:induction false} SettleValid(m: ManagerState, store: Option<StoreState>, key: Key, rejected: bool, payload: Bytes,
                    metadata: Option<JsonObject>, now: int)
    requires ValidManager(m)
    ensures ValidManager(Settle(m, store, key, rejected, payload, metadata, now).0)
  {
    if store == None {
      RememberValid(m, StateRecord(key, 1, payload, OrEmpty(metadata), now));
    } else {
      var put := StorePut(store.value, key, payload, OrEmpty(metadata), None, now).1;
      if put.Ok? { RememberValid(m, put.value); }
    }
  }
}
