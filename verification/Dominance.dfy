/**
 Exact decision counts for served traces, and the repository's thesis: agent-local layout
 identity never recomputes more than whole-graph identity, which never recomputes more
 than no reuse at all.
 */
module Dominance {
  import opened Wrappers
  import opened Ordering
  import opened Json
  import opened Topology
  import opened TopologyTheorems
  import opened Identity
  import opened Store
  import opened StoreTheorems
  import opened Manager
  import opened Runtime
  import opened Interleaving

  /** One invocation of a trace, with the payload its compute function returns if it is called. */
  datatype Call = Call(invocation: InvocationPlan, payload: Bytes, metadata: JsonObject, now: int)

  function Outcome(r: RuntimeState, c: Call): (RuntimeState, Result<AccessResult, RuntimeError>) {
    RuntimeAcquire(r, c.invocation, Some(c.payload), c.metadata, c.now)
  }

  function Serve(r: RuntimeState, calls: seq<Call>): RuntimeState {
    if calls == [] then r else Outcome(Serve(r, calls[..|calls| - 1]), calls[|calls| - 1]).0
  }

  /** Every acquire completed and the shared store never evicted. */
  ghost predicate Undisturbed(r: RuntimeState, calls: seq<Call>)
    decreases |calls|
  {
    calls == [] ||
    (var before := Serve(r, calls[..|calls| - 1]);
     var (after, result) := Outcome(before, calls[|calls| - 1]);
     Undisturbed(r, calls[..|calls| - 1]) && result.Ok? && after.store.evictions == before.store.evictions)
  }

  // ---------- the counters of all managers ----------

  datatype Counter = LocalHits | RemoteHits | Recomputes

  function Read(counter: Counter, stats: ManagerStats): nat {
    match counter
    case LocalHits => stats.localHits
    case RemoteHits => stats.remoteHits
    case Recomputes => stats.recomputes
  }

  /** A counter summed over the instances. */
  function Sum(counter: Counter, managers: map<string, ManagerState>, instances: seq<string>): nat {
    if instances == [] then 0
    else (if instances[0] in managers then Read(counter, managers[instances[0]].stats) else 0) +
         Sum(counter, managers, instances[1..])
  }

  lemma {:induction false} SumElsewhere(counter: Counter, managers: map<string, ManagerState>, instances: seq<string>, i: string, m: ManagerState)
    requires i !in instances
    ensures Sum(counter, managers[i := m], instances) == Sum(counter, managers, instances)
  {
    if instances != [] {
      assert instances == [instances[0]] + instances[1..];
      SumElsewhere(counter, managers, instances[1..], i, m);
    }
  }

  lemma {:induction false} SumUpdate(counter: Counter, managers: map<string, ManagerState>, instances: seq<string>, i: string, m: ManagerState)
    requires Distinct(instances) && i in instances && i in managers
    ensures Sum(counter, managers[i := m], instances) ==
            Sum(counter, managers, instances) - Read(counter, managers[i].stats) + Read(counter, m.stats)
  {
    assert instances == [instances[0]] + instances[1..];
    if instances[0] == i {
      assert i !in instances[1..];
      SumElsewhere(counter, managers, instances[1..], i, m);
    } else {
      SumUpdate(counter, managers, instances[1..], i, m);
    }
  }

  lemma {:induction false} SumFresh(counter: Counter, managers: map<string, ManagerState>, instances: seq<string>)
    requires forall i :: i in managers ==> managers[i].stats == NO_STATS
    ensures Sum(counter, managers, instances) == 0
  {
    if instances != [] { SumFresh(counter, managers, instances[1..]); }
  }

  // ---------- the keys of a trace ----------

  ghost function KeysIn(policy: Policy, calls: seq<Call>): set<Key> {
    set c | c in calls :: KeyOf(policy, c.invocation)
  }

  ghost function PairsIn(policy: Policy, calls: seq<Call>): set<(string, Key)> {
    set c | c in calls :: (c.invocation.instance, KeyOf(policy, c.invocation))
  }

  lemma KeysGrow(policy: Policy, calls: seq<Call>)
    requires calls != []
    ensures var before, last := calls[..|calls| - 1], calls[|calls| - 1];
      var key := KeyOf(policy, last.invocation);
      && KeysIn(policy, calls) == KeysIn(policy, before) + {key}
      && PairsIn(policy, calls) == PairsIn(policy, before) + {(last.invocation.instance, key)}
  {
  }

  // ---------- one acquire ----------

  lemma RememberKeys(m: ManagerState, record: StateRecord)
    requires ValidManager(m)
    ensures Remember(m, record).local.Keys <= m.local.Keys + {record.key}
    ensures |m.local.Keys + {record.key}| <= m.maxLocalEntries ==>
      Remember(m, record).local.Keys == m.local.Keys + {record.key}
  {
    var order := Touch(m.localOrder, record.key);
    TouchDistinct(m.localOrder, record.key);
    DistinctSize(order);
    if |order| <= m.maxLocalEntries {
      RestrictAll(m.local[record.key := record], order);
    }
  }

  lemma GetKeys(s: StoreState, key: Key)
    ensures KeysOf(StoreGet(s, key).0.records) == KeysOf(s.records)
  {
  }

  lemma PutKeys(s: StoreState, key: Key, payload: Bytes, metadata: JsonObject, now: int)
    requires ValidStore(s)
    ensures var (s', put) := StorePut(s, key, payload, metadata, None, now);
      && ValidStore(s') && s'.maxBytes == s.maxBytes && s'.evictions >= s.evictions
      && (put.Ok? ==> put.value.key == key)
      && (put.Ok? && s'.evictions == s.evictions ==> KeysOf(s'.records) == KeysOf(s.records) + {key})
  {
    var op := Put(key, payload, metadata, None, now);
    PutValid(s, key, payload, metadata, None, now);
    StepShape(s, op);
    if PutSucceeds(s, op) && Step(s, op).evictions == s.evictions {
      var all := Appendix(s.records, Newest(s, op));
      assert Step(s, op).records == all;
      forall k ensures k in KeysOf(all) <==> k in KeysOf(s.records) + {key} {
        if k in KeysOf(s.records) && k != key {
          var r :| r in s.records && r.key == k;
          assert r in all;
        }
        if k == key { assert Newest(s, op) in all; }
      }
    }
  }

  /** How one completed acquire moved the keys: its key is now in the store and, if there is room, local. */
  ghost predicate KeyEffect(m: ManagerState, s: StoreState, key: Key, m': ManagerState, s': StoreState) {
    && KeysOf(s'.records) == KeysOf(s.records) + {key}
    && m'.local.Keys <= m.local.Keys + {key}
    && (|m.local.Keys + {key}| <= m.maxLocalEntries ==> m'.local.Keys == m.local.Keys + {key})
  }

  /** How it moved the counters: where the key was found says everything. */
  ghost predicate CounterEffect(m: ManagerState, s: StoreState, key: Key, m': ManagerState) {
    var local, remote := key in m.local, key in KeysOf(s.records);
    && m'.stats.localHits == m.stats.localHits + (if local then 1 else 0)
    && m'.stats.remoteHits == m.stats.remoteHits + (if !local && remote then 1 else 0)
    && m'.stats.recomputes == m.stats.recomputes + (if !local && !remote then 1 else 0)
  }

  ghost predicate Effect(m: ManagerState, s: StoreState, key: Key, m': ManagerState, s': StoreState) {
    KeyEffect(m, s, key, m', s') && CounterEffect(m, s, key, m')
  }

  ghost predicate Tame(m: ManagerState, s: StoreState, m': ManagerState, s': StoreState) {
    && ValidManager(m') && m'.policy == m.policy && m'.maxLocalEntries == m.maxLocalEntries
    && ValidStore(s') && s'.maxBytes == s.maxBytes && s'.evictions >= s.evictions
  }

  lemma LocalHitEffect(m: ManagerState, s: StoreState, key: Key)
    requires ValidManager(m) && ValidStore(s) && m.local.Keys <= KeysOf(s.records) && key in m.local
    ensures Tame(m, s, LocallyHit(m, key), s) && Effect(m, s, key, LocallyHit(m, key), s)
  {
  }

  lemma RemoteHitTame(m: ManagerState, s: StoreState, key: Key, record: StateRecord)
    requires ValidManager(m) && ValidStore(s)
    ensures Tame(m, s, RemotelyHit(m, record), StoreGet(s, key).0)
  {
    GetValid(s, key);
    RememberValid(m, record);
  }

  lemma {:induction false} RemoteHitKeys(m: ManagerState, s: StoreState, key: Key, record: StateRecord)
    requires ValidManager(m) && Lookup(s.records, key) == Some(record)
    ensures KeyEffect(m, s, key, RemotelyHit(m, record), StoreGet(s, key).0)
  {
    GetKeys(s, key);
    RememberKeys(m, record);
    assert KeysOf(s.records) + {key} == KeysOf(s.records);
    assert RemotelyHit(m, record).local == Remember(m, record).local;
  }

  lemma {:induction false} RemoteHitEffect(m: ManagerState, s: StoreState, key: Key)
    requires ValidManager(m) && key !in m.local && Lookup(s.records, key).Some?
    ensures Effect(m, s, key, RemotelyHit(m, Lookup(s.records, key).value), StoreGet(s, key).0)
  {
    RemoteHitKeys(m, s, key, Lookup(s.records, key).value);
  }

  lemma ConsultEffect(m: ManagerState, s: StoreState, key: Key)
    requires ValidManager(m) && ValidStore(s) && m.local.Keys <= KeysOf(s.records)
    ensures var (m', s', answer) := Consult(m, Some(s), key, None, None);
      && s'.Some? && Tame(m, s, m', s'.value)
      && (answer.Hit? ==> Effect(m, s, key, m', s'.value) && key in KeysOf(s.records))
      && (answer.Miss? ==> m' == m && s'.value == s && answer == Miss(false) && key !in m.local && key !in KeysOf(s.records))
  {
    if key in m.local {
      LocalHitEffect(m, s, key);
    } else if Lookup(s.records, key).Some? {
      RemoteHitTame(m, s, key, Lookup(s.records, key).value);
      RemoteHitEffect(m, s, key);
    }
  }

  lemma {:induction false} SettleEffect(m: ManagerState, s: StoreState, key: Key, payload: Bytes, metadata: JsonObject, now: int)
    requires ValidManager(m) && ValidStore(s) && key !in m.local && key !in KeysOf(s.records)
    ensures var (m', s', result) := Settle(m, Some(s), key, false, payload, Some(metadata), now);
      && s'.Some? && Tame(m, s, m', s'.value)
      && (result.Ok? && s'.value.evictions == s.evictions ==> Effect(m, s, key, m', s'.value))
  {
    PutKeys(s, key, payload, metadata, now);
    SettleValid(m, Some(s), key, false, payload, Some(metadata), now);
    var put := StorePut(s, key, payload, metadata, None, now).1;
    if put.Ok? {
      RememberKeys(m, put.value);
    }
  }

  lemma {:induction false} AcquireEffect(m: ManagerState, s: StoreState, key: Key, payload: Bytes, metadata: JsonObject, now: int)
    requires ValidManager(m) && ValidStore(s) && m.policy != Reset && m.local.Keys <= KeysOf(s.records)
    ensures var (m', s', result) := ManagerAcquire(m, Some(s), key, Some(payload), Some(metadata), None, None, now);
      && s'.Some? && Tame(m, s, m', s'.value)
      && (result.Ok? && s'.value.evictions == s.evictions ==> Effect(m, s, key, m', s'.value))
  {
    ConsultEffect(m, s, key);
    var (m1, s1, answer) := Consult(m, Some(s), key, None, None);
    if answer.Miss? {
      SettleEffect(m1, s1.value, key, payload, metadata, now);
    }
  }

  // ---------- whole traces ----------

  /** Where a served trace stands: the store holds exactly the keys asked for, each computed once. */
  ghost predicate Accounted(r: RuntimeState, policy: Policy, instances: seq<string>, keys: set<Key>) {
    && ValidRuntime(r) && r.managers.Keys == Elements(instances)
    && (forall i :: i in r.managers ==> r.managers[i].policy == policy && r.managers[i].local.Keys <= keys)
    && KeysOf(r.store.records) == keys
    && Sum(Recomputes, r.managers, instances) == |keys|
  }

  lemma {:induction false} TraceAccounted(policy: Policy, instances: seq<string>, limit: nat, maxBytes: int, calls: seq<Call>)
    requires policy != Reset && limit > 0 && maxBytes > 0 && Distinct(instances)
    requires Undisturbed(FreshRuntime(policy, instances, limit, EmptyStore(maxBytes)), calls)
    ensures Accounted(Serve(FreshRuntime(policy, instances, limit, EmptyStore(maxBytes)), calls), policy, instances, KeysIn(policy, calls))
  {
    var start := FreshRuntime(policy, instances, limit, EmptyStore(maxBytes));
    if calls == [] {
      SumFresh(Recomputes, start.managers, instances);
      assert KeysIn(policy, calls) == {};
    } else {
      var n := |calls| - 1;
      TraceAccounted(policy, instances, limit, maxBytes, calls[..n]);
      CallAccounted(Serve(start, calls[..n]), policy, instances, KeysIn(policy, calls[..n]), calls[n]);
      KeysGrow(policy, calls);
    }
  }

  /** The manager and the store after one more call of an accounted trace. */
  lemma {:induction false} CallEffect(r: RuntimeState, policy: Policy, c: Call)
    requires policy != Reset && ValidRuntime(r) && c.invocation.instance in r.managers
    requires r.managers[c.invocation.instance].policy == policy
    requires r.managers[c.invocation.instance].local.Keys <= KeysOf(r.store.records)
    ensures var (r', result) := Outcome(r, c);
      && r'.managers.Keys == r.managers.Keys
      && r' == RuntimeState(r.managers[c.invocation.instance := r'.managers[c.invocation.instance]], r'.store)
      && Tame(r.managers[c.invocation.instance], r.store, r'.managers[c.invocation.instance], r'.store)
      && (result.Ok? && r'.store.evictions == r.store.evictions ==>
            Effect(r.managers[c.invocation.instance], r.store, KeyOf(policy, c.invocation), r'.managers[c.invocation.instance], r'.store))
  {
    AcquireEffect(r.managers[c.invocation.instance], r.store, KeyOf(policy, c.invocation), c.payload, c.metadata, c.now);
  }

  lemma {:induction false} CallAccounted(r: RuntimeState, policy: Policy, instances: seq<string>, keys: set<Key>, c: Call)
    requires policy != Reset && Distinct(instances) && Accounted(r, policy, instances, keys)
    requires Outcome(r, c).1.Ok? && Outcome(r, c).0.store.evictions == r.store.evictions
    ensures Accounted(Outcome(r, c).0, policy, instances, keys + {KeyOf(policy, c.invocation)})
  {
    var i, key := c.invocation.instance, KeyOf(policy, c.invocation);
    CallEffect(r, policy, c);
    EffectAccounted(r, policy, instances, keys, i, key, Outcome(r, c).0);
  }

  lemma {:induction false} EffectAccounted(r: RuntimeState, policy: Policy, instances: seq<string>, keys: set<Key>, i: string, key: Key, r': RuntimeState)
    requires Distinct(instances) && Accounted(r, policy, instances, keys) && i in r.managers && i in r'.managers
    requires r' == RuntimeState(r.managers[i := r'.managers[i]], r'.store)
    requires Tame(r.managers[i], r.store, r'.managers[i], r'.store)
    requires Effect(r.managers[i], r.store, key, r'.managers[i], r'.store)
    ensures Accounted(r', policy, instances, keys + {key})
  {
    RecomputesCounted(r, policy, instances, keys, i, key, r');
    assert r'.managers.Keys == r.managers.Keys;
    assert r'.managers[i].local.Keys <= keys + {key};
  }

  /** The summed recomputes grow exactly with the set of keys. */
  lemma RecomputesCounted(r: RuntimeState, policy: Policy, instances: seq<string>, keys: set<Key>, i: string, key: Key, r': RuntimeState)
    requires Distinct(instances) && Accounted(r, policy, instances, keys) && i in r.managers && i in r'.managers
    requires r'.managers == r.managers[i := r'.managers[i]]
    requires CounterEffect(r.managers[i], r.store, key, r'.managers[i])
    ensures Sum(Recomputes, r'.managers, instances) == |keys + {key}|
  {
    assert i in Elements(instances);
    SumUpdate(Recomputes, r.managers, instances, i, r'.managers[i]);
    assert key in r.managers[i].local ==> key in keys;
    GrownSize(keys, key);
  }

  /** Summed recomputes are exactly the number of distinct keys in the trace, whatever the placement and local bounds. */
  lemma RecomputesAreDistinctKeys(policy: Policy, instances: seq<string>, limit: nat, maxBytes: int, calls: seq<Call>)
    requires policy != Reset && limit > 0 && maxBytes > 0 && Distinct(instances)
    requires Undisturbed(FreshRuntime(policy, instances, limit, EmptyStore(maxBytes)), calls)
    ensures var r := Serve(FreshRuntime(policy, instances, limit, EmptyStore(maxBytes)), calls);
      Sum(Recomputes, r.managers, instances) == |KeysIn(policy, calls)|
  {
    TraceAccounted(policy, instances, limit, maxBytes, calls);
  }

  // ---------- local and remote hits ----------

  /** The keys asked of one instance. */
  ghost function LocalOf(pairs: set<(string, Key)>, i: string): set<Key> {
    set p | p in pairs && p.0 == i :: p.1
  }

  /** When no manager ever overflows, each local table holds exactly the keys asked of its instance. */
  ghost predicate Detailed(r: RuntimeState, instances: seq<string>, keys: set<Key>, pairs: set<(string, Key)>, n: nat) {
    && (forall i :: i in r.managers ==> r.managers[i].local.Keys == LocalOf(pairs, i))
    && Sum(LocalHits, r.managers, instances) + |pairs| == n
    && Sum(RemoteHits, r.managers, instances) + |keys| == |pairs|
  }

  ghost predicate Roomy(limit: nat, pairs: set<(string, Key)>) {
    forall i :: |LocalOf(pairs, i)| <= limit
  }

  lemma LocalOfGrows(pairs: set<(string, Key)>, i: string, key: Key)
    ensures LocalOf(pairs + {(i, key)}, i) == LocalOf(pairs, i) + {key}
    ensures forall j :: j != i ==> LocalOf(pairs + {(i, key)}, j) == LocalOf(pairs, j)
    ensures key in LocalOf(pairs, i) <==> (i, key) in pairs
  {
  }

  lemma GrownSize<T>(s: set<T>, x: T)
    ensures |s + {x}| == |s| + if x in s then 0 else 1
  {
    if x in s { assert s + {x} == s; }
  }

  lemma {:induction false} EffectDetailed(r: RuntimeState, policy: Policy, instances: seq<string>, keys: set<Key>, pairs: set<(string, Key)>,
                       n: nat, i: string, key: Key, r': RuntimeState)
    requires Distinct(instances) && Accounted(r, policy, instances, keys) && Detailed(r, instances, keys, pairs, n)
    requires i in r.managers && i in r'.managers && |LocalOf(pairs + {(i, key)}, i)| <= r.managers[i].maxLocalEntries
    requires r' == RuntimeState(r.managers[i := r'.managers[i]], r'.store)
    requires Effect(r.managers[i], r.store, key, r'.managers[i], r'.store)
    ensures Detailed(r', instances, keys + {key}, pairs + {(i, key)}, n + 1)
  {
    HitsCounted(r, policy, instances, keys, pairs, n, i, key, r');
    LocalOfGrows(pairs, i, key);
    assert r'.managers[i].local.Keys == LocalOf(pairs + {(i, key)}, i);
  }

  /** A call is a local hit when its pair is old, a remote hit when only its key is. */
  lemma HitsCounted(r: RuntimeState, policy: Policy, instances: seq<string>, keys: set<Key>, pairs: set<(string, Key)>,
                    n: nat, i: string, key: Key, r': RuntimeState)
    requires Distinct(instances) && Accounted(r, policy, instances, keys) && Detailed(r, instances, keys, pairs, n)
    requires i in r.managers && i in r'.managers
    requires r'.managers == r.managers[i := r'.managers[i]]
    requires CounterEffect(r.managers[i], r.store, key, r'.managers[i])
    ensures Sum(LocalHits, r'.managers, instances) + |pairs + {(i, key)}| == n + 1
    ensures Sum(RemoteHits, r'.managers, instances) + |keys + {key}| == |pairs + {(i, key)}|
  {
    assert i in Elements(instances);
    SumUpdate(LocalHits, r.managers, instances, i, r'.managers[i]);
    SumUpdate(RemoteHits, r.managers, instances, i, r'.managers[i]);
    LocalOfGrows(pairs, i, key);
    GrownSize(keys, key);
    GrownSize(pairs, (i, key));
    assert key in r.managers[i].local ==> key in keys;
  }

  lemma RoomyPrefix(limit: nat, fewer: set<(string, Key)>, pairs: set<(string, Key)>)
    requires Roomy(limit, pairs) && fewer <= pairs
    ensures Roomy(limit, fewer)
  {
    forall i ensures |LocalOf(fewer, i)| <= limit {
      SubsetSize(LocalOf(fewer, i), LocalOf(pairs, i));
    }
  }

  lemma {:induction false} BoundsKept(r: RuntimeState, policy: Policy, instances: seq<string>, limit: nat, maxBytes: int, calls: seq<Call>)
    requires r == FreshRuntime(policy, instances, limit, EmptyStore(maxBytes))
    ensures Serve(r, calls).managers.Keys == Elements(instances)
    ensures forall i :: i in Serve(r, calls).managers ==> Serve(r, calls).managers[i].maxLocalEntries == limit
  {
    if calls != [] {
      BoundsKept(r, policy, instances, limit, maxBytes, calls[..|calls| - 1]);
      OutcomeBounds(Serve(r, calls[..|calls| - 1]), calls[|calls| - 1]);
    }
  }

  lemma OutcomeBounds(r: RuntimeState, c: Call)
    ensures var r' := Outcome(r, c).0;
      && r'.managers.Keys == r.managers.Keys
      && forall i :: i in r.managers ==> r'.managers[i].maxLocalEntries == r.managers[i].maxLocalEntries
  {
  }

  lemma {:induction false} TraceDetailed(policy: Policy, instances: seq<string>, limit: nat, maxBytes: int, calls: seq<Call>)
    requires policy != Reset && limit > 0 && maxBytes > 0 && Distinct(instances)
    requires Undisturbed(FreshRuntime(policy, instances, limit, EmptyStore(maxBytes)), calls)
    requires Roomy(limit, PairsIn(policy, calls))
    ensures Detailed(Serve(FreshRuntime(policy, instances, limit, EmptyStore(maxBytes)), calls), instances,
                     KeysIn(policy, calls), PairsIn(policy, calls), |calls|)
  {
    var start := FreshRuntime(policy, instances, limit, EmptyStore(maxBytes));
    if calls == [] {
      SumFresh(LocalHits, start.managers, instances);
      SumFresh(RemoteHits, start.managers, instances);
      assert KeysIn(policy, calls) == {} && PairsIn(policy, calls) == {};
    } else {
      var n := |calls| - 1;
      var r, c := Serve(start, calls[..n]), calls[n];
      KeysGrow(policy, calls);
      RoomyPrefix(limit, PairsIn(policy, calls[..n]), PairsIn(policy, calls));
      TraceDetailed(policy, instances, limit, maxBytes, calls[..n]);
      TraceAccounted(policy, instances, limit, maxBytes, calls[..n]);
      BoundsKept(start, policy, instances, limit, maxBytes, calls[..n]);
      CallEffect(r, policy, c);
      EffectDetailed(r, policy, instances, KeysIn(policy, calls[..n]), PairsIn(policy, calls[..n]), n,
                     c.invocation.instance, KeyOf(policy, c.invocation), Outcome(r, c).0);
    }
  }

  /**
   Exact accounting: with no store eviction, no local overflow and no admission rule, recomputes
   are the distinct keys, remote hits are the distinct (instance, key) pairs beyond them, and
   every other acquire is a local hit.
   */
  lemma {:induction false} ExactDecisionCounts(policy: Policy, instances: seq<string>, limit: nat, maxBytes: int, calls: seq<Call>)
    requires policy != Reset && limit > 0 && maxBytes > 0 && Distinct(instances)
    requires Undisturbed(FreshRuntime(policy, instances, limit, EmptyStore(maxBytes)), calls)
    requires Roomy(limit, PairsIn(policy, calls))
    ensures var managers := Serve(FreshRuntime(policy, instances, limit, EmptyStore(maxBytes)), calls).managers;
      && Sum(Recomputes, managers, instances) == |KeysIn(policy, calls)|
      && Sum(RemoteHits, managers, instances) == |PairsIn(policy, calls)| - |KeysIn(policy, calls)|
      && Sum(LocalHits, managers, instances) == |calls| - |PairsIn(policy, calls)|
  {
    TraceAccounted(policy, instances, limit, maxBytes, calls);
    TraceDetailed(policy, instances, limit, maxBytes, calls);
  }

  /** Under stable placement a key is only ever asked of one instance. */
  ghost predicate StablyPlaced(instances: seq<string>, calls: seq<Call>) {
    && instances != []
    && forall c :: c in calls ==>
         && c.invocation.instance == instances[Place(c.invocation.role, Stable, 0, 0, |instances|)]
         && c.invocation.layout.spec.consumerRole == c.invocation.role
  }

  /** A key has been asked before exactly when it has been asked of the same instance before. */
  lemma StableRepeat(policy: Policy, instances: seq<string>, before: seq<Call>, last: Call)
    requires policy != Reset && StablyPlaced(instances, before + [last])
    requires forall c :: c in before + [last] ==> c.invocation.layout == FromSpec(c.invocation.layout.spec)
    ensures KeyOf(policy, last.invocation) in KeysIn(policy, before) <==>
            (last.invocation.instance, KeyOf(policy, last.invocation)) in PairsIn(policy, before)
  {
  }

  lemma {:induction false} StablePairs(policy: Policy, instances: seq<string>, calls: seq<Call>)
    requires policy != Reset && StablyPlaced(instances, calls)
    requires forall c :: c in calls ==> c.invocation.layout == FromSpec(c.invocation.layout.spec)
    ensures |PairsIn(policy, calls)| == |KeysIn(policy, calls)|
  {
    if calls == [] {
      assert PairsIn(policy, calls) == {} && KeysIn(policy, calls) == {};
    } else {
      var before, last := calls[..|calls| - 1], calls[|calls| - 1];
      assert calls == before + [last];
      assert forall c :: c in before ==> c in calls;
      StablePairs(policy, instances, before);
      StableRepeat(policy, instances, before, last);
      KeysGrow(policy, calls);
      GrownSize(KeysIn(policy, before), KeyOf(policy, last.invocation));
      GrownSize(PairsIn(policy, before), (last.invocation.instance, KeyOf(policy, last.invocation)));
    }
  }

  /** So under stable placement there are no remote hits at all. */
  lemma {:induction false} StablePlacementNeverFetches(policy: Policy, instances: seq<string>, limit: nat, maxBytes: int, calls: seq<Call>)
    requires policy != Reset && limit > 0 && maxBytes > 0 && Distinct(instances)
    requires Undisturbed(FreshRuntime(policy, instances, limit, EmptyStore(maxBytes)), calls)
    requires Roomy(limit, PairsIn(policy, calls)) && StablyPlaced(instances, calls)
    requires forall c :: c in calls ==> c.invocation.layout == FromSpec(c.invocation.layout.spec)
    ensures Sum(RemoteHits, Serve(FreshRuntime(policy, instances, limit, EmptyStore(maxBytes)), calls).managers, instances) == 0
  {
    ExactDecisionCounts(policy, instances, limit, maxBytes, calls);
    StablePairs(policy, instances, calls);
  }

  // ---------- the reset baseline ----------

  lemma {:induction false} ResetRecomputesAll(instances: seq<string>, limit: nat, maxBytes: int, calls: seq<Call>)
    requires Distinct(instances)
    requires forall c :: c in calls ==> c.invocation.instance in instances
    ensures var r := Serve(FreshRuntime(Reset, instances, limit, EmptyStore(maxBytes)), calls);
      && r.managers.Keys == Elements(instances) && (forall i :: i in r.managers ==> r.managers[i].policy == Reset)
      && r.store == EmptyStore(maxBytes)
      && Sum(Recomputes, r.managers, instances) == |calls|
  {
    var start := FreshRuntime(Reset, instances, limit, EmptyStore(maxBytes));
    if calls == [] {
      SumFresh(Recomputes, start.managers, instances);
    } else {
      var n := |calls| - 1;
      assert forall c :: c in calls[..n] ==> c in calls;
      ResetRecomputesAll(instances, limit, maxBytes, calls[..n]);
      var r, i := Serve(start, calls[..n]), calls[n].invocation.instance;
      assert calls[n] in calls;
      assert i in Elements(instances);
      SumUpdate(Recomputes, r.managers, instances, i, Outcome(r, calls[n]).0.managers[i]);
    }
  }

  // ---------- a sufficient amount of room ----------

  function PayloadTotal(calls: seq<Call>): nat {
    if calls == [] then 0 else PayloadTotal(calls[..|calls| - 1]) + |calls[|calls| - 1].payload|
  }

  lemma PublishInRoom(s: StoreState, key: Key, payload: Bytes, metadata: JsonObject, now: int)
    requires ValidStore(s) && !key.Empty() && |payload| <= s.maxBytes && s.bytes + |payload| <= s.maxBytes
    ensures var (s', put) := StorePut(s, key, payload, metadata, None, now);
      put.Ok? && s'.evictions == s.evictions && s'.bytes <= s.bytes + |payload|
  {
    var op := Put(key, payload, metadata, None, now);
    Appended(s, Newest(s, op));
    PutShape(s, op);
    StepShape(s, op);
  }

  lemma CallInRoom(r: RuntimeState, policy: Policy, c: Call)
    requires policy != Reset && ValidRuntime(r) && c.invocation.instance in r.managers
    requires r.managers[c.invocation.instance].policy == policy
    requires r.managers[c.invocation.instance].local.Keys <= KeysOf(r.store.records)
    requires |c.payload| <= r.store.maxBytes && r.store.bytes + |c.payload| <= r.store.maxBytes
    ensures var (r', result) := Outcome(r, c);
      result.Ok? && r'.store.evictions == r.store.evictions && r'.store.bytes <= r.store.bytes + |c.payload|
  {
    var key := KeyOf(policy, c.invocation);
    ConsultEffect(r.managers[c.invocation.instance], r.store, key);
    PublishInRoom(r.store, key, c.payload, c.metadata, c.now);
  }

  /** If the store could hold every payload of the trace at once, the trace runs undisturbed. */
  lemma {:induction false} RoomForAllIsUndisturbed(policy: Policy, instances: seq<string>, limit: nat, maxBytes: int, calls: seq<Call>)
    requires policy != Reset && limit > 0 && maxBytes > 0 && Distinct(instances)
    requires forall c :: c in calls ==> c.invocation.instance in instances
    requires PayloadTotal(calls) <= maxBytes
    ensures var start := FreshRuntime(policy, instances, limit, EmptyStore(maxBytes));
      && Undisturbed(start, calls)
      && Serve(start, calls).store.bytes <= PayloadTotal(calls) && Serve(start, calls).store.maxBytes == maxBytes
  {
    var start := FreshRuntime(policy, instances, limit, EmptyStore(maxBytes));
    if calls != [] {
      var n := |calls| - 1;
      assert forall c :: c in calls[..n] ==> c in calls;
      RoomForAllIsUndisturbed(policy, instances, limit, maxBytes, calls[..n]);
      TraceAccounted(policy, instances, limit, maxBytes, calls[..n]);
      var r := Serve(start, calls[..n]);
      assert calls[n] in calls;
      assert calls[n].invocation.instance in Elements(instances);
      CallInRoom(r, policy, calls[n]);
      CallEffect(r, policy, calls[n]);
    }
  }

  // ---------- policy dominance ----------

  /** Two runs of the same requests: the same invocations, possibly placed on different instances. */
  ghost predicate SameWork(a: seq<Call>, b: seq<Call>) {
    && |a| == |b|
    && forall i :: 0 <= i < |a| ==>
         a[i].invocation.(instance := "") == b[i].invocation.(instance := "")
  }

  lemma KeyCount(policy: Policy, calls: seq<Call>)
    requires calls != []
    ensures var n := |calls| - 1;
      |KeysIn(policy, calls)| ==
      |KeysIn(policy, calls[..n])| + if KeyOf(policy, calls[n].invocation) in KeysIn(policy, calls[..n]) then 0 else 1
  {
    KeysGrow(policy, calls);
    GrownSize(KeysIn(policy, calls[..|calls| - 1]), KeyOf(policy, calls[|calls| - 1].invocation));
  }

  lemma KeyPosition(policy: Policy, calls: seq<Call>, n: nat, key: Key) returns (i: nat)
    requires n <= |calls| && key in KeysIn(policy, calls[..n])
    ensures i < n && KeyOf(policy, calls[i].invocation) == key
  {
    var c :| c in calls[..n] && KeyOf(policy, c.invocation) == key;
    i :| 0 <= i < n && calls[..n][i] == c;
  }

  lemma KeySeen(policy: Policy, calls: seq<Call>, n: nat, i: nat)
    requires i < n <= |calls|
    ensures KeyOf(policy, calls[i].invocation) in KeysIn(policy, calls[..n])
  {
  }

  /** A graph key seen before means a layout key seen before. */
  lemma {:induction false} RepeatedGraphKey(local: seq<Call>, whole: seq<Call>, model: string, i: nat, n: nat)
    requires SameWork(local, whole) && i < n < |local|
    requires forall c :: c in whole ==> Planned(c.invocation, model)
    requires KeyOf(WholeGraph, whole[i].invocation) == KeyOf(WholeGraph, whole[n].invocation)
    ensures KeyOf(LocalLayout, local[i].invocation) == KeyOf(LocalLayout, local[n].invocation)
  {
    KeyDeterminesLayout(WholeGraph, WholeGraph, whole[i].invocation, whole[n].invocation, model);
    assert local[i].invocation.layout == whole[i].invocation.(instance := "").layout;
    assert local[n].invocation.layout == whole[n].invocation.(instance := "").layout;
  }

  lemma SameWorkPrefix(local: seq<Call>, whole: seq<Call>, n: nat)
    requires SameWork(local, whole) && n <= |local|
    ensures SameWork(local[..n], whole[..n])
  {
  }

  /** Along the same planned invocations there are never more layout keys than graph keys. */
  lemma {:induction false} LayoutKeysNeverMore(local: seq<Call>, whole: seq<Call>, model: string)
    requires SameWork(local, whole)
    requires forall c :: c in whole ==> Planned(c.invocation, model)
    ensures |KeysIn(LocalLayout, local)| <= |KeysIn(WholeGraph, whole)| <= |whole|
  {
    if local == [] {
      assert KeysIn(LocalLayout, local) == {} && KeysIn(WholeGraph, whole) == {};
    } else {
      var n := |local| - 1;
      var l, w := local[..n], whole[..n];
      SameWorkPrefix(local, whole, n);
      LayoutKeysNeverMore(l, w, model);
      var layoutKey, graphKey := KeyOf(LocalLayout, local[n].invocation), KeyOf(WholeGraph, whole[n].invocation);
      if graphKey in KeysIn(WholeGraph, w) {
        var i := KeyPosition(WholeGraph, whole, n, graphKey);
        RepeatedGraphKey(local, whole, model, i, n);
        KeySeen(LocalLayout, local, n, i);
      }
      KeyCount(LocalLayout, local);
      KeyCount(WholeGraph, whole);
    }
  }

  /** The parameters one policy's run is free to choose. */
  datatype Deployment = Deployment(instances: seq<string>, limit: nat, maxBytes: int)

  ghost predicate Deployable(d: Deployment) {
    d.limit > 0 && d.maxBytes > 0 && Distinct(d.instances)
  }

  function Started(policy: Policy, d: Deployment): RuntimeState {
    FreshRuntime(policy, d.instances, d.limit, EmptyStore(d.maxBytes))
  }

  function TotalRecomputes(policy: Policy, d: Deployment, calls: seq<Call>): nat {
    Sum(Recomputes, Serve(Started(policy, d), calls).managers, d.instances)
  }

  /**
   Policy dominance: on the same planned requests, with stores that never evict, agent-local
   layout identity recomputes no more often than whole-graph identity, and whole-graph
   identity no more often than reset, which recomputes every invocation.  Each run chooses
   its own instances, placement, local bounds and store size.
   */
  lemma {:induction false} PolicyDominance(model: string, local: seq<Call>, whole: seq<Call>, reset: seq<Call>,
                        dl: Deployment, dw: Deployment, dr: Deployment)
    requires Deployable(dl) && Deployable(dw) && Deployable(dr)
    requires SameWork(local, whole) && SameWork(whole, reset)
    requires forall c :: c in whole ==> Planned(c.invocation, model)
    requires Undisturbed(Started(LocalLayout, dl), local) && Undisturbed(Started(WholeGraph, dw), whole)
    requires forall c :: c in reset ==> c.invocation.instance in dr.instances
    ensures TotalRecomputes(LocalLayout, dl, local) <= TotalRecomputes(WholeGraph, dw, whole)
    ensures TotalRecomputes(WholeGraph, dw, whole) <= TotalRecomputes(Reset, dr, reset) == |reset|
  {
    RecomputesAreDistinctKeys(LocalLayout, dl.instances, dl.limit, dl.maxBytes, local);
    RecomputesAreDistinctKeys(WholeGraph, dw.instances, dw.limit, dw.maxBytes, whole);
    ResetRecomputesAll(dr.instances, dr.limit, dr.maxBytes, reset);
    LayoutKeysNeverMore(local, whole, model);
  }

  /** The same, from conditions known before the runs: each store could hold every payload of its trace at once. */
  lemma {:induction false} PolicyDominanceWithRoom(model: string, local: seq<Call>, whole: seq<Call>, reset: seq<Call>,
                                dl: Deployment, dw: Deployment, dr: Deployment)
    requires Deployable(dl) && Deployable(dw) && Deployable(dr)
    requires SameWork(local, whole) && SameWork(whole, reset)
    requires forall c :: c in whole ==> Planned(c.invocation, model)
    requires PayloadTotal(local) <= dl.maxBytes && PayloadTotal(whole) <= dw.maxBytes
    requires forall c :: c in local ==> c.invocation.instance in dl.instances
    requires forall c :: c in whole ==> c.invocation.instance in dw.instances
    requires forall c :: c in reset ==> c.invocation.instance in dr.instances
    ensures TotalRecomputes(LocalLayout, dl, local) <= TotalRecomputes(WholeGraph, dw, whole)
    ensures TotalRecomputes(WholeGraph, dw, whole) <= TotalRecomputes(Reset, dr, reset) == |reset|
  {
    RoomForAllIsUndisturbed(LocalLayout, dl.instances, dl.limit, dl.maxBytes, local);
    RoomForAllIsUndisturbed(WholeGraph, dw.instances, dw.limit, dw.maxBytes, whole);
    PolicyDominance(model, local, whole, reset, dl, dw, dr);
  }

  // ---------- planned traces ----------

  /** Planning the same request with another placement, instance list or position changes only the instances. */
  lemma PlansDifferInInstanceOnly(request: TopologyRequest, order: seq<Role>, model: string,
                                  p: Placement, p': Placement, instances: seq<string>, instances': seq<string>,
                                  position: int, position': int, repetition: int, repetition': int)
    requires instances != [] && instances' != [] && forall role :: role in order ==> role in request.graph.activeRoles
    ensures var a := PlanRoles(request, order, model, p, instances, position, repetition);
      var b := PlanRoles(request, order, model, p', instances', position', repetition');
      |a| == |b| && forall i :: 0 <= i < |a| ==> a[i].(instance := "") == b[i].(instance := "")
  {
  }

  /** The invocation was planned under stable placement, for some request at some position and repetition. */
  ghost predicate StablyPlanned(invocation: InvocationPlan, instances: seq<string>, model: string) {
    exists request, position, repetition :: PlannedBy(invocation, request, instances, model, position, repetition)
  }

  ghost predicate PlannedBy(invocation: InvocationPlan, request: TopologyRequest, instances: seq<string>, model: string,
                            position: int, repetition: int)
  {
    && instances != [] && Order(request.graph).Ok?
    && (forall role :: role in Order(request.graph).value ==> role in request.graph.activeRoles)
    && invocation in PlanRoles(request, Order(request.graph).value, model, Stable, instances, position, repetition)
  }

  /** A trace of any number of requests, all planned under stable placement, is stably placed. */
  lemma StablePlansAreStable(instances: seq<string>, model: string, calls: seq<Call>)
    requires instances != [] && forall c :: c in calls ==> StablyPlanned(c.invocation, instances, model)
    ensures StablyPlaced(instances, calls)
    ensures forall c :: c in calls ==> c.invocation.layout == FromSpec(c.invocation.layout.spec)
    ensures forall c :: c in calls ==> Planned(c.invocation, model)
  {
    forall c | c in calls
      ensures c.invocation.instance == instances[Place(c.invocation.role, Stable, 0, 0, |instances|)]
      ensures c.invocation.layout.spec.consumerRole == c.invocation.role
      ensures c.invocation.layout == FromSpec(c.invocation.layout.spec)
      ensures Planned(c.invocation, model)
    {
      var request, position, repetition :| PlannedBy(c.invocation, request, instances, model, position, repetition);
      PlannedOnce(c.invocation, request, instances, model, position, repetition);
    }
  }

  lemma PlannedOnce(invocation: InvocationPlan, request: TopologyRequest, instances: seq<string>, model: string,
                    position: int, repetition: int)
    requires PlannedBy(invocation, request, instances, model, position, repetition)
    ensures invocation.instance == instances[Place(invocation.role, Stable, 0, 0, |instances|)]
    ensures invocation.layout.spec.consumerRole == invocation.role
    ensures invocation.layout == FromSpec(invocation.layout.spec)
    ensures Planned(invocation, model)
  {
    var order := Order(request.graph).value;
    var i :| 0 <= i < |order| &&
      invocation == PlanRoles(request, order, model, Stable, instances, position, repetition)[i];
    assert invocation == PlanRole(request, order[i], model, Stable, instances, position, repetition);
    PlansArePlanned(request, model, Stable, instances, position, repetition);
  }

  /** So a trace planned under stable placement is never fetched remotely, whatever requests it serves. */
  lemma {:induction false} StableTracesNeverFetch(policy: Policy, instances: seq<string>, model: string, limit: nat, maxBytes: int, calls: seq<Call>)
    requires policy != Reset && limit > 0 && maxBytes > 0 && instances != [] && Distinct(instances)
    requires forall c :: c in calls ==> StablyPlanned(c.invocation, instances, model)
    requires Undisturbed(FreshRuntime(policy, instances, limit, EmptyStore(maxBytes)), calls)
    requires Roomy(limit, PairsIn(policy, calls))
    ensures Sum(RemoteHits, Serve(FreshRuntime(policy, instances, limit, EmptyStore(maxBytes)), calls).managers, instances) == 0
  {
    StablePlansAreStable(instances, model, calls);
    StablePlacementNeverFetches(policy, instances, limit, maxBytes, calls);
  }
}
