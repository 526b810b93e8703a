/** What one acquire returns and leaves behind, read off the local tables, the shared store and the admission rule. */
module ManagerTheorems {
  import opened Wrappers
  import opened Json
  import opened Topology
  import opened TopologyTheorems
  import opened Identity
  import opened Store
  import opened StoreTheorems
  import opened StoreOperations
  import opened Manager

  /** There is no admission rule, or it accepts the record for the caller's estimate. */
  predicate Accepts(rule: Option<Admission>, record: StateRecord, estimate: Option<int>) {
    match rule case None => true case Some(accepts) => accepts(record, estimate)
  }

  /** The record is now in the tables as the most recent one; what else is there was there before. */
  ghost predicate Remembered(m: ManagerState, m': ManagerState, record: StateRecord) {
    && ValidManager(m')
    && record.key in m'.local && m'.local[record.key] == record
    && m'.localOrder != [] && m'.localOrder[|m'.localOrder| - 1] == record.key
    && forall k :: k in m'.local && k != record.key ==> k in m.local && m'.local[k] == m.local[k]
  }

  lemma RememberExactly(m: ManagerState, record: StateRecord)
    requires ValidManager(m)
    ensures Remembered(m, Remember(m, record), record)
    ensures Remember(m, record).stats == m.stats
  {
    RememberValid(m, record);
    var order := TrimOrder(Touch(m.localOrder, record.key), m.maxLocalEntries);
    assert order[|order| - 1] == record.key;
  }

  /** A key in the local tables is answered from them, with the version it was remembered with; no other state moves. */
  lemma LocalHitExactly(m: ManagerState, store: Option<StoreState>, key: Key, computed: Option<Bytes>, metadata: Option<JsonObject>,
                        rule: Option<Admission>, estimate: Option<int>, now: int)
    requires ValidManager(m) && m.policy != Reset && key in m.local
    ensures var (m', store', result) := ManagerAcquire(m, store, key, computed, metadata, rule, estimate, now);
      && result == Ok(AccessResult(LocalHit, key, m.local[key].payload, 0, m.local[key].version))
      && store' == store && m'.local == m.local
      && m'.localOrder != [] && m'.localOrder[|m'.localOrder| - 1] == key
      && m'.stats == m.stats.(localHits := m.stats.localHits + 1)
  {
  }

  /** The stored record is returned with its size as the transfer, remembered and counted. */
  ghost predicate FetchOutcome(m: ManagerState, m': ManagerState, result: Result<AccessResult, AcquireError>, record: StateRecord) {
    && result == Ok(AccessResult(RemoteHit, record.key, record.payload, |record.payload|, record.version))
    && Remembered(m, m', record)
    && m'.stats == m.stats.(remoteHits := m.stats.remoteHits + 1, bytesLoaded := m.stats.bytesLoaded + |record.payload|)
  }

  lemma {:induction false} HitConsults(m: ManagerState, s: StoreState, record: StateRecord, rule: Option<Admission>, estimate: Option<int>)
    requires ValidManager(m) && ValidStore(s) && record.key !in m.local && record in s.records && Accepts(rule, record, estimate)
    ensures Consult(m, Some(s), record.key, rule, estimate) ==
      (RemotelyHit(m, record), Some(StoreGet(s, record.key).0),
       Hit(AccessResult(RemoteHit, record.key, record.payload, |record.payload|, record.version)))
  {
    LookupMember(s.records, record);
  }

  lemma {:induction false} AdmittedFetch(m: ManagerState, s: StoreState, record: StateRecord, computed: Option<Bytes>,
                      metadata: Option<JsonObject>, rule: Option<Admission>, estimate: Option<int>, now: int)
    requires ValidManager(m) && ValidStore(s) && m.policy != Reset && record.key !in m.local
    requires record in s.records && Accepts(rule, record, estimate)
    ensures var (m', store', result) := ManagerAcquire(m, Some(s), record.key, computed, metadata, rule, estimate, now);
      FetchOutcome(m, m', result, record) && store' == Some(StoreGet(s, record.key).0)
  {
    HitConsults(m, s, record, rule, estimate);
    RememberExactly(m, record);
    SameTables(m, Remember(m, record), RemotelyHit(m, record), record);
  }

  /** Counters are no part of the tables. */
  lemma SameTables(m: ManagerState, a: ManagerState, b: ManagerState, record: StateRecord)
    requires Remembered(m, a, record) && b == a.(stats := b.stats)
    ensures Remembered(m, b, record)
  {
  }

  /** The counters after a consultation that found nothing, or rejected what it found. */
  function Consulted(stats: ManagerStats, rejected: bool): ManagerStats {
    if rejected then stats.(remoteRejected := stats.remoteRejected + 1) else stats
  }

  /** What a completed recomputation of this payload, stored with this version, returns and leaves behind. */
  ghost predicate RecomputedWith(m: ManagerState, m': ManagerState, result: Result<AccessResult, AcquireError>, rejected: bool,
                                 record: StateRecord, stored: nat)
  {
    && result == Ok(AccessResult(if rejected then RemoteRejected else Recompute, record.key, record.payload, 0, record.version))
    && Remembered(m, m', record)
    && m'.stats == Consulted(m.stats, rejected).(recomputes := m.stats.recomputes + 1, bytesStored := m.stats.bytesStored + stored)
  }

  /** Settling a miss follows the store's answer. */
  lemma SettleFrom(m: ManagerState, s: StoreState, s': StoreState, put: Result<StateRecord, StoreError>, key: Key, rejected: bool,
                   payload: Bytes, metadata: Option<JsonObject>, now: int)
    requires StorePut(s, key, payload, OrEmpty(metadata), None, now) == (s', put)
    ensures Settle(m, Some(s), key, rejected, payload, metadata, now) == match put
      case Err(error) => (m, Some(s'), Err(error))
      case Ok(record) =>
        (Recomputed(m, record, |payload|), Some(s'),
         Ok(AccessResult(if rejected then RemoteRejected else Recompute, key, payload, 0, record.version)))
  {
  }

  /** A publication: refused if it is too large, and otherwise the next version. */
  lemma PublishExactly(s: StoreState, key: Key, payload: Bytes, fields: JsonObject, now: int, stored: int)
    requires ValidStore(s) && !key.Empty() && StoredVersion(s, key, stored)
    ensures var (s', put) := StorePut(s, key, payload, fields, None, now);
      var record := StateRecord(key, stored + 1, payload, fields, now);
      && (|payload| > s.maxBytes ==> (s', put) == (s, Err(PayloadTooLarge)))
      && (|payload| <= s.maxBytes ==> put == Ok(record) && Replaced(s.records, s'.records, record))
  {
    PutRefusals(s, key, payload, Dictionary(fields), None, now, stored);
    PutExactly(s, key, payload, fields, None, now, stored);
  }

  /** The tables and counters after a recomputation. */
  lemma RecomputedExactly(m: ManagerState, record: StateRecord, stored: nat)
    requires ValidManager(m)
    ensures Remembered(m, Recomputed(m, record, stored), record)
    ensures Recomputed(m, record, stored).stats ==
      m.stats.(recomputes := m.stats.recomputes + 1, bytesStored := m.stats.bytesStored + stored)
  {
    RememberExactly(m, record);
    SameTables(m, Remember(m, record), Recomputed(m, record, stored), record);
  }

  /** A payload larger than the store: nothing moves. */
  lemma SettleRefused(m: ManagerState, s: StoreState, key: Key, rejected: bool, payload: Bytes, metadata: Option<JsonObject>,
                      now: int, stored: int)
    requires ValidStore(s) && !key.Empty() && StoredVersion(s, key, stored) && |payload| > s.maxBytes
    ensures Settle(m, Some(s), key, rejected, payload, metadata, now) == (m, Some(s), Err(PayloadTooLarge))
  {
    PublishExactly(s, key, payload, OrEmpty(metadata), now, stored);
    SettleFrom(m, s, s, Err(PayloadTooLarge), key, rejected, payload, metadata, now);
  }

  /** Any other payload: published as the next version, remembered and counted. */
  lemma SettleStored(m: ManagerState, s: StoreState, key: Key, rejected: bool, payload: Bytes, metadata: Option<JsonObject>,
                     now: int, stored: int)
    requires ValidStore(s) && !key.Empty() && StoredVersion(s, key, stored) && |payload| <= s.maxBytes
    ensures var record := StateRecord(key, stored + 1, payload, OrEmpty(metadata), now);
      var s' := StorePut(s, key, payload, OrEmpty(metadata), None, now).0;
      && Replaced(s.records, s'.records, record)
      && Settle(m, Some(s), key, rejected, payload, metadata, now) ==
         (Recomputed(m, record, |payload|), Some(s'),
          Ok(AccessResult(if rejected then RemoteRejected else Recompute, key, payload, 0, stored + 1)))
  {
    var record := StateRecord(key, stored + 1, payload, OrEmpty(metadata), now);
    PublishExactly(s, key, payload, OrEmpty(metadata), now, stored);
    SettleFrom(m, s, StorePut(s, key, payload, OrEmpty(metadata), None, now).0, Ok(record), key, rejected, payload, metadata, now);
  }

  lemma {:induction false} MissConsults(m: ManagerState, s: StoreState, key: Key, found: Option<StateRecord>, rule: Option<Admission>,
                                        estimate: Option<int>)
    requires ValidManager(m) && ValidStore(s) && key !in m.local && Shared(s, key, found)
    requires found.Some? ==> !Accepts(rule, found.value, estimate)
    ensures Consult(m, Some(s), key, rule, estimate) ==
      (m.(stats := Consulted(m.stats, found.Some?)), Some(StoreGet(s, key).0), Miss(found.Some?))
  {
    SharedLookup(s, key, found);
  }

  /** A get moves its record, so it changes neither what the store holds nor the version of a key. */
  lemma GetKeepsShared(s: StoreState, key: Key, stored: int)
    requires ValidStore(s) && StoredVersion(s, key, stored)
    ensures var s' := StoreGet(s, key).0; ValidStore(s') && s'.maxBytes == s.maxBytes && StoredVersion(s', key, stored)
  {
    GetValid(s, key);
    GetExactly(s, key);
    if !Absent(s.records, key) {
      var i :| 0 <= i < |s.records| && s.records[i].key == key && s.records[i].version == stored;
      var after := Dropped(s.records, i) + [s.records[i]];
      assert after[|after| - 1] == s.records[i];
    }
  }

  /**
   An acquire that found nothing it may use: the payload is computed, published as the next
   version and remembered; if the computation raises, or the payload is larger than the store,
   the tables stay as they were.
   */
  ghost predicate MissOutcome(m: ManagerState, m': ManagerState, result: Result<AccessResult, AcquireError>, key: Key, maxBytes: int,
                              rejected: bool, computed: Option<Bytes>, metadata: Option<JsonObject>, now: int, stored: int)
  {
    match computed
    case None => result == Err(ComputeRaised) && m' == m.(stats := Consulted(m.stats, rejected))
    case Some(payload) =>
      if |payload| > maxBytes then
        result == Err(NotPublished(PayloadTooLarge)) && m' == m.(stats := Consulted(m.stats, rejected))
      else
        RecomputedWith(m, m', result, rejected, StateRecord(key, stored + 1, payload, OrEmpty(metadata), now), |payload|)
  }

  lemma {:induction false} MissIsSettled(m: ManagerState, s: StoreState, m1: ManagerState, s1: StoreState, key: Key, rejected: bool, payload: Bytes,
                                         metadata: Option<JsonObject>, rule: Option<Admission>, estimate: Option<int>, now: int)
    requires m.policy != Reset && Consult(m, Some(s), key, rule, estimate) == (m1, Some(s1), Miss(rejected))
    ensures var (m', store', outcome) := Settle(m1, Some(s1), key, rejected, payload, metadata, now);
      ManagerAcquire(m, Some(s), key, Some(payload), metadata, rule, estimate, now) == (m', store', Manager.Settled(outcome))
  {
  }

  lemma {:induction false} SettledOutcome(m: ManagerState, s: StoreState, key: Key, rejected: bool, payload: Bytes,
                                          metadata: Option<JsonObject>, now: int, stored: int)
    requires ValidManager(m) && ValidStore(s) && !key.Empty() && StoredVersion(s, key, stored)
    ensures var (m', store', outcome) := Settle(m.(stats := Consulted(m.stats, rejected)), Some(s), key, rejected, payload, metadata, now);
      MissOutcome(m, m', Manager.Settled(outcome), key, s.maxBytes, rejected, Some(payload), metadata, now, stored)
  {
    var m1 := m.(stats := Consulted(m.stats, rejected));
    if |payload| > s.maxBytes {
      SettleRefused(m1, s, key, rejected, payload, metadata, now, stored);
    } else {
      SettleStored(m1, s, key, rejected, payload, metadata, now, stored);
      RecomputedExactly(m1, StateRecord(key, stored + 1, payload, OrEmpty(metadata), now), |payload|);
    }
  }

  lemma {:induction false} MissSettles(m: ManagerState, s: StoreState, key: Key, found: Option<StateRecord>, payload: Bytes,
                                       metadata: Option<JsonObject>, rule: Option<Admission>, estimate: Option<int>, now: int, stored: int)
    requires ValidManager(m) && ValidStore(s) && m.policy != Reset && !key.Empty() && key !in m.local
    requires Shared(s, key, found) && StoredVersion(s, key, stored)
    requires found.Some? ==> !Accepts(rule, found.value, estimate)
    ensures var (m', store', result) := ManagerAcquire(m, Some(s), key, Some(payload), metadata, rule, estimate, now);
      MissOutcome(m, m', result, key, s.maxBytes, found.Some?, Some(payload), metadata, now, stored)
  {
    MissConsults(m, s, key, found, rule, estimate);
    GetKeepsShared(s, key, stored);
    var m1, s1 := m.(stats := Consulted(m.stats, found.Some?)), StoreGet(s, key).0;
    MissIsSettled(m, s, m1, s1, key, found.Some?, payload, metadata, rule, estimate, now);
    SettledOutcome(m, s1, key, found.Some?, payload, metadata, now, stored);
  }

  /**
   One acquire under a sharing policy.  A key in the local tables is a local hit.  A key in the
   shared store is a remote hit if and only if there is no admission rule or it accepts the
   record; if it does not, a rejection is counted.  Otherwise the payload is computed.
   */
  lemma {:induction false} AcquireExactly(m: ManagerState, s: StoreState, key: Key, found: Option<StateRecord>, computed: Option<Bytes>,
                                          metadata: Option<JsonObject>, rule: Option<Admission>, estimate: Option<int>, now: int,
                                          stored: int)
    requires ValidManager(m) && ValidStore(s) && m.policy != Reset && !key.Empty()
    requires Shared(s, key, found) && StoredVersion(s, key, stored)
    ensures var (m', store', result) := ManagerAcquire(m, Some(s), key, computed, metadata, rule, estimate, now);
      var admitted := found.Some? && (rule == None || rule.value(found.value, estimate));
      if key in m.local then
        && result == Ok(AccessResult(LocalHit, key, m.local[key].payload, 0, m.local[key].version))
        && m'.local == m.local && m'.stats == m.stats.(localHits := m.stats.localHits + 1) && store' == Some(s)
      else if admitted then
        FetchOutcome(m, m', result, found.value) && store' == Some(StoreGet(s, key).0)
      else
        && MissOutcome(m, m', result, key, s.maxBytes, found.Some?, computed, metadata, now, stored)
        && !(result.Ok? && result.value.decision == RemoteHit)
  {
    if key in m.local {
      LocalHitExactly(m, Some(s), key, computed, metadata, rule, estimate, now);
    } else if found.Some? && Accepts(rule, found.value, estimate) {
      AdmittedFetch(m, s, found.value, computed, metadata, rule, estimate, now);
    } else if computed.Some? {
      MissSettles(m, s, key, found, computed.value, metadata, rule, estimate, now, stored);
    } else {
      MissConsults(m, s, key, found, rule, estimate);
    }
  }

  /** Without a shared store a key that is not local is computed and remembered as version 1, and nothing is counted as stored. */
  lemma {:induction false} AcquireAlone(m: ManagerState, key: Key, payload: Bytes, metadata: Option<JsonObject>, rule: Option<Admission>,
                                        estimate: Option<int>, now: int)
    requires ValidManager(m) && m.policy != Reset && key !in m.local
    ensures var (m', store', result) := ManagerAcquire(m, None, key, Some(payload), metadata, rule, estimate, now);
      store' == None && RecomputedWith(m, m', result, false, StateRecord(key, 1, payload, OrEmpty(metadata), now), 0)
  {
    RecomputedExactly(m, StateRecord(key, 1, payload, OrEmpty(metadata), now), 0);
  }

  /** Without sharing the payload is computed and returned as version 0; only the recompute counter moves. */
  lemma AcquireWithoutSharing(m: ManagerState, store: Option<StoreState>, key: Key, payload: Bytes, metadata: Option<JsonObject>,
                              rule: Option<Admission>, estimate: Option<int>, now: int)
    requires m.policy == Reset
    ensures ManagerAcquire(m, store, key, Some(payload), metadata, rule, estimate, now) ==
      (m.(stats := m.stats.(recomputes := m.stats.recomputes + 1)), store, Ok(AccessResult(Recompute, key, payload, 0, 0)))
  {
  }

  // ---------- keys ----------

  /**
   When two roles of two valid graphs share a key: without sharing, when request and role are
   the same; under whole graphs, when the graphs hold the same roles and edges and the role is
   the same; under local layouts, when model, role, template version and predecessors are.
   */
  lemma {:induction false} KeysExactly(policy: Policy, g: GraphSpec, h: GraphSpec, role: Role, role': Role, model: string, model': string,
                                       versions: map<Role, string>, versions': map<Role, string>, id: string, id': string)
    requires FaultFree(g) && FaultFree(h) && role in g.activeRoles && role' in h.activeRoles
    ensures StateKey(policy, LayoutOf(g, role, model, versions), id, Digest(g)) ==
            StateKey(policy, LayoutOf(h, role', model', versions'), id', Digest(h)) <==>
      && role == role'
      && match policy
         case Reset => id == id'
         case WholeGraph => multiset(g.activeRoles) == multiset(h.activeRoles) && multiset(g.edges) == multiset(h.edges)
         case LocalLayout =>
           && model == model' && PredecessorSet(g, role) == PredecessorSet(h, role)
           && (if role in versions then versions[role] else "v1") == (if role in versions' then versions'[role] else "v1")
  {
    match policy
    case Reset =>
    case WholeGraph => GraphIdentityCanonical(g, h);
    case LocalLayout =>
      if role == role' {
        LayoutLocality(g, h, role, model, model', versions, versions');
      }
  }
}
