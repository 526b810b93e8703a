/** What a manager's counters and local tables amount to, in every interleaving. */
module Ledger {
  import opened Wrappers
  import opened Ordering
  import opened Json
  import opened Store
  import opened Manager
  import opened Runtime
  import opened Interleaving
  import StoreTheorems

  // ---------- counters ----------

  function Count(answers: seq<Answered>, decision: Decision): nat {
    if answers == [] then 0
    else
      var n := |answers| - 1;
      Count(answers[..n], decision) + if answers[n].result.decision == decision then 1 else 0
  }

  function TransferTotal(answers: seq<Answered>): nat {
    if answers == [] then 0
    else TransferTotal(answers[..|answers| - 1]) + answers[|answers| - 1].result.transferBytes
  }

  /** The payload bytes of the acquires that computed, all of which were published to the store. */
  function ComputedTotal(answers: seq<Answered>): nat {
    if answers == [] then 0
    else
      var last := answers[|answers| - 1].result;
      ComputedTotal(answers[..|answers| - 1]) +
      if last.decision.Recompute? || last.decision.RemoteRejected? then |last.payload| else 0
  }

  predicate PendingRejection(a: Agent) {
    !a.phase.Idle? && a.phase.rejected
  }

  /**
   A step in which an agent gives up an acquire whose fetch was rejected: the compute function
   raises, or the payload it returned is larger than the whole store.
   */
  predicate GivesUp(a: Agent, s: StoreState, e: Event) {
    PendingRejection(a) && match e
      case Abort(_) => a.phase.Computing?
      case Finish(_, _, _) => a.phase.Publishing? && |a.phase.payload| > s.maxBytes
      case _ => false
  }

  /** The counters of an agent that has given up `lost` rejected acquires. */
  ghost predicate Balanced(a: Agent, lost: nat) {
    var stats := a.manager.stats;
    && stats.localHits == Count(a.answers, LocalHit)
    && stats.remoteHits == Count(a.answers, RemoteHit)
    && stats.recomputes == Count(a.answers, Recompute) + Count(a.answers, RemoteRejected)
    && stats.remoteRejected == Count(a.answers, RemoteRejected) + lost + (if PendingRejection(a) then 1 else 0)
    && stats.bytesLoaded == TransferTotal(a.answers)
    && stats.bytesStored == (if a.manager.policy == Reset then 0 else ComputedTotal(a.answers))
    && stats.localHits + stats.remoteHits + stats.recomputes == |a.answers|
    && (a.manager.policy == Reset ==> !PendingRejection(a))
  }

  /** `after` counts one more completed acquire than `before`; its rejection, if any, was counted when it was consulted. */
  ghost predicate Counted(before: ManagerStats, after: ManagerStats, result: AccessResult, stored: nat) {
    var computed := result.decision.Recompute? || result.decision.RemoteRejected?;
    && after.localHits == before.localHits + (if result.decision.LocalHit? then 1 else 0)
    && after.remoteHits == before.remoteHits + (if result.decision.RemoteHit? then 1 else 0)
    && after.recomputes == before.recomputes + (if computed then 1 else 0)
    && after.remoteRejected == before.remoteRejected
    && after.bytesLoaded == before.bytesLoaded + result.transferBytes
    && after.bytesStored == before.bytesStored + stored
  }

  /** `a'` has completed one more acquire than `a`, and its counters say so. */
  ghost predicate Credited(a: Agent, a': Agent, last: Answered, stored: nat) {
    var computed := last.result.decision.Recompute? || last.result.decision.RemoteRejected?;
    && a'.answers == a.answers + [last] && a'.phase.Idle?
    && a'.manager.policy == a.manager.policy
    && Counted(a.manager.stats, a'.manager.stats, last.result, stored)
    && PendingRejection(a) == last.result.decision.RemoteRejected?
    && stored == if computed && a.manager.policy != Reset then |last.result.payload| else 0
  }

  lemma CountNext(answers: seq<Answered>, last: Answered, decision: Decision)
    ensures Count(answers + [last], decision) == Count(answers, decision) + if last.result.decision == decision then 1 else 0
  {
    assert (answers + [last])[..|answers|] == answers;
  }

  lemma TotalsNext(answers: seq<Answered>, last: Answered)
    ensures TransferTotal(answers + [last]) == TransferTotal(answers) + last.result.transferBytes
    ensures ComputedTotal(answers + [last]) == ComputedTotal(answers) +
      if last.result.decision.Recompute? || last.result.decision.RemoteRejected? then |last.result.payload| else 0
  {
    assert (answers + [last])[..|answers|] == answers;
  }

  lemma CreditedBalanced(a: Agent, a': Agent, last: Answered, stored: nat, lost: nat)
    requires Balanced(a, lost) && Credited(a, a', last, stored)
    ensures Balanced(a', lost)
  {
    CountNext(a.answers, last, LocalHit);
    CountNext(a.answers, last, RemoteHit);
    CountNext(a.answers, last, Recompute);
    CountNext(a.answers, last, RemoteRejected);
    TotalsNext(a.answers, last);
  }

  /** What consulting does to the counters. */
  lemma ConsultCounts(m: ManagerState, s: StoreState, key: Key, admission: Option<Admission>, estimate: Option<int>)
    ensures var (m', s', answer) := Consult(m, Some(s), key, admission, estimate);
      && m'.policy == m.policy
      && (answer.Hit? ==> Counted(m.stats, m'.stats, answer.result, 0))
      && (answer.Hit? ==> answer.result.decision.LocalHit? || answer.result.decision.RemoteHit?)
      && (answer.Miss? ==> m' == if answer.rejected then Rejecting(m) else m)
  {
  }

  lemma {:induction false} BeginBalanced(a: Agent, s: StoreState, invocation: InvocationPlan, admission: Option<Admission>, estimate: Option<int>, lost: nat)
    requires Balanced(a, lost)
    ensures Balanced(AgentBegin(a, s, invocation, admission, estimate).0, lost)
  {
    if a.phase.Idle? && a.manager.policy != Reset {
      var key := KeyOf(a.manager.policy, invocation);
      BeginStep(a, s, invocation, admission, estimate);
      ConsultCounts(a.manager, s, key, admission, estimate);
      var (m, s', answer) := Consult(a.manager, Some(s), key, admission, estimate);
      if answer.Hit? {
        CreditedBalanced(a, AgentBegin(a, s, invocation, admission, estimate).0, Answered(invocation, answer.result), 0, lost);
      } else {
        MissBalanced(a, Computing(invocation, answer.rejected), lost);
      }
    }
  }

  lemma MissBalanced(a: Agent, phase: Phase, lost: nat)
    requires Balanced(a, lost) && a.phase.Idle? && phase.Computing? && a.manager.policy != Reset
    ensures Balanced(a.(manager := if phase.rejected then Rejecting(a.manager) else a.manager, phase := phase), lost)
  {
  }

  /** A publication fails exactly when the payload is larger than the whole store. */
  lemma SettleCounts(m: ManagerState, s: StoreState, key: Key, rejected: bool, payload: Bytes, metadata: Option<JsonObject>, now: int)
    requires !key.Empty()
    ensures var (m', s', outcome) := Settle(m, Some(s), key, rejected, payload, metadata, now);
      && m'.policy == m.policy
      && (outcome.Err? <==> |payload| > s.maxBytes)
      && (outcome.Err? ==> m' == m)
      && (outcome.Ok? ==> Counted(m.stats, m'.stats, outcome.value, |payload|))
      && (outcome.Ok? ==> outcome.value.decision == if rejected then RemoteRejected else Recompute)
      && (outcome.Ok? ==> outcome.value.payload == payload)
  {
  }

  lemma {:induction false} FinishBalanced(a: Agent, s: StoreState, metadata: Option<JsonObject>, now: int, lost: nat, e: Event)
    requires Balanced(a, lost) && e.Finish?
    ensures Balanced(AgentFinish(a, s, metadata, now).0, lost + if GivesUp(a, s, e) then 1 else 0)
  {
    if a.phase.Publishing? {
      var a' := AgentFinish(a, s, metadata, now).0;
      var key, invocation, payload := KeyOf(a.manager.policy, a.phase.invocation), a.phase.invocation, a.phase.payload;
      if a.manager.policy == Reset {
        CreditedBalanced(a, a', Answered(invocation, AcquireReset(a.manager, key, payload).1), 0, lost);
      } else {
        PublishStep(a, s, metadata, now);
        SettleCounts(a.manager, s, key, a.phase.rejected, payload, metadata, now);
        var outcome := Settle(a.manager, Some(s), key, a.phase.rejected, payload, metadata, now).2;
        if outcome.Ok? {
          CreditedBalanced(a, a', Answered(invocation, outcome.value), |payload|, lost);
        }
      }
    }
  }

  // ---------- the local cache ----------

  /** The distinct keys of a history, least recently used first. */
  function RecentKeys(history: seq<Key>): seq<Key> {
    if history == [] then [] else Touch(RecentKeys(history[..|history| - 1]), history[|history| - 1])
  }

  function LastIndex(history: seq<Key>, key: Key): int {
    if history == [] then -1
    else if history[|history| - 1] == key then |history| - 1
    else LastIndex(history[..|history| - 1], key)
  }

  function TakeLast<T>(s: seq<T>, n: nat): seq<T> {
    if |s| > n then s[|s| - n..] else s
  }

  /** RecentKeys lists each key of the history once, in the order of last use. */
  lemma {:induction false} RecentKeysMeaning(history: seq<Key>)
    ensures Distinct(RecentKeys(history)) && Elements(RecentKeys(history)) == Elements(history)
    ensures forall i, j :: 0 <= i < j < |RecentKeys(history)| ==>
      LastIndex(history, RecentKeys(history)[i]) < LastIndex(history, RecentKeys(history)[j]) < |history|
    ensures forall k :: k in RecentKeys(history) ==> LastIndex(history, k) < |history|
  {
    if history != [] {
      var n := |history| - 1;
      var before, key := history[..n], history[n];
      RecentKeysMeaning(before);
      TouchDistinct(RecentKeys(before), key);
      assert history == before + [key];
      assert Elements(history) == Elements(before) + {key};
      OrderKept(before, RecentKeys(before), key);
      var rest := RemoveFirst(RecentKeys(before), key);
      forall i, j | 0 <= i < j < |RecentKeys(history)|
        ensures LastIndex(history, RecentKeys(history)[i]) < LastIndex(history, RecentKeys(history)[j]) < |history|
      {
        assert rest[i] in rest && rest[i] != key;
        if j < |rest| { assert rest[j] in rest && rest[j] != key; }
      }
    }
  }

  ghost predicate OrderedByUse(history: seq<Key>, keys: seq<Key>) {
    forall i, j :: 0 <= i < j < |keys| ==> LastIndex(history, keys[i]) < LastIndex(history, keys[j])
  }

  lemma {:induction false} OrderKept(history: seq<Key>, keys: seq<Key>, key: Key)
    requires OrderedByUse(history, keys)
    ensures OrderedByUse(history, RemoveFirst(keys, key))
  {
    if keys != [] {
      var first, rest := keys[0], keys[1..];
      assert keys == [first] + rest;
      assert forall i :: 0 <= i < |rest| ==> rest[i] == keys[i + 1];
      OrderKept(history, rest, key);
      if first != key {
        var fewer := RemoveFirst(rest, key);
        forall i | 0 <= i < |fewer| ensures LastIndex(history, first) < LastIndex(history, fewer[i]) {
          assert fewer[i] in rest;
        }
        assert RemoveFirst(keys, key) == [first] + fewer;
      }
    }
  }

  lemma {:induction false} RemoveInFront(a: seq<Key>, b: seq<Key>, key: Key)
    requires key in a
    ensures RemoveFirst(a + b, key) == RemoveFirst(a, key) + b
  {
    assert (a + b)[1..] == a[1..] + b;
    if a[0] != key {
      RemoveInFront(a[1..], b, key);
      assert [a[0]] + (RemoveFirst(a[1..], key) + b) == ([a[0]] + RemoveFirst(a[1..], key)) + b;
    }
  }

  lemma {:induction false} RemoveBehind(a: seq<Key>, b: seq<Key>, key: Key)
    requires key !in a
    ensures RemoveFirst(a + b, key) == a + RemoveFirst(b, key)
  {
    if a == [] {
      assert a + b == b;
    } else {
      var rest := a[1..];
      assert (a + b)[1..] == rest + b && (a + b)[0] == a[0];
      RemoveBehind(rest, b, key);
      calc {
        RemoveFirst(a + b, key);
        [a[0]] + RemoveFirst(rest + b, key);
        [a[0]] + (rest + RemoveFirst(b, key));
        ([a[0]] + rest) + RemoveFirst(b, key);
        { assert [a[0]] + rest == a; }
        a + RemoveFirst(b, key);
      }
    }
  }

  /** Touching and trimming the last n of a list gives the last n of the touched list. */
  lemma TouchTakeLast(front: seq<Key>, tail: seq<Key>, key: Key, n: nat)
    requires Distinct(front + tail) && |tail| <= n && (front == [] || |tail| == n > 0)
    ensures TrimOrder(Touch(tail, key), n) == TakeLast(Touch(front + tail, key), n)
    ensures key in tail ==> TrimOrder(Touch(tail, key), n) == Touch(tail, key)
  {
    if key in tail {
      TailDistinct(front, tail, key);
      RemoveBehind(front, tail, key);
      assert Touch(front + tail, key) == front + Touch(tail, key);
      ShortTail(front, Touch(tail, key), n);
    } else if key in front {
      RemoveInFront(front, tail, key);
      RemoveAbsent(tail, key);
      assert Touch(front + tail, key) == RemoveFirst(front, key) + (tail + [key]);
      ShortTail(RemoveFirst(front, key), tail + [key], n);
    } else {
      RemoveBehind(front, tail, key);
      RemoveAbsent(tail, key);
      assert Touch(front + tail, key) == front + (tail + [key]);
      ShortTail(front, tail + [key], n);
    }
  }

  lemma TailDistinct(front: seq<Key>, tail: seq<Key>, key: Key)
    requires Distinct(front + tail) && key in tail
    ensures key !in front && |Touch(tail, key)| == |tail|
  {
    var i :| 0 <= i < |tail| && tail[i] == key;
    assert (front + tail)[|front| + i] == key;
    assert forall j :: 0 <= j < |front| ==> (front + tail)[j] == front[j];
    assert Distinct(tail) by {
      assert forall j :: 0 <= j < |tail| ==> (front + tail)[|front| + j] == tail[j];
    }
  }

  lemma ShortTail(front: seq<Key>, tail: seq<Key>, n: nat)
    requires front == [] || |tail| >= n
    ensures TakeLast(front + tail, n) == TrimOrder(tail, n)
  {
  }

  lemma {:induction false} RemoveAbsent(keys: seq<Key>, key: Key)
    requires key !in keys
    ensures RemoveFirst(keys, key) == keys
  {
    if keys != [] { RemoveAbsent(keys[1..], key); }
  }

  /** The local list is the last N distinct keys acquired since the last clear. */
  ghost predicate LastDistinct(a: Agent) {
    && ValidManager(a.manager)
    && a.manager.localOrder == TakeLast(RecentKeys(a.recent), a.manager.maxLocalEntries)
    && (a.manager.policy == Reset ==> a.recent == [])
  }

  lemma {:induction false} ExtendRecent(recent: seq<Key>, key: Key, n: nat)
    requires n > 0
    ensures TakeLast(RecentKeys(recent + [key]), n) == TrimOrder(Touch(TakeLast(RecentKeys(recent), n), key), n)
    ensures key in TakeLast(RecentKeys(recent), n) ==>
      TakeLast(RecentKeys(recent + [key]), n) == Touch(TakeLast(RecentKeys(recent), n), key)
  {
    RecentKeysMeaning(recent);
    var keys, tail := RecentKeys(recent), TakeLast(RecentKeys(recent), n);
    assert keys == keys[..|keys| - |tail|] + tail;
    TouchTakeLast(keys[..|keys| - |tail|], tail, key, n);
    assert (recent + [key])[..|recent|] == recent;
  }

  /** A hit leaves the key as the most recent one, in the tables as in the history. */
  lemma {:induction false} ConsultOrder(m: ManagerState, s: StoreState, key: Key, admission: Option<Admission>, estimate: Option<int>)
    requires ValidManager(m)
    ensures var (m', s', answer) := Consult(m, Some(s), key, admission, estimate);
      && ValidManager(m') && m'.maxLocalEntries == m.maxLocalEntries && m'.policy == m.policy
      && (answer.Miss? ==> m'.localOrder == m.localOrder)
      && (answer.Hit? ==> answer.result.key == key)
      && (answer.Hit? && key in m.localOrder ==> m'.localOrder == Touch(m.localOrder, key))
      && (answer.Hit? && key !in m.localOrder ==> m'.localOrder == TrimOrder(Touch(m.localOrder, key), m.maxLocalEntries))
  {
    ConsultValid(m, Some(s), key, admission, estimate);
    assert key in m.local <==> key in Elements(m.localOrder);
  }

  lemma BeginLastDistinct(a: Agent, s: StoreState, invocation: InvocationPlan, admission: Option<Admission>, estimate: Option<int>)
    requires LastDistinct(a)
    ensures LastDistinct(AgentBegin(a, s, invocation, admission, estimate).0)
  {
    if a.phase.Idle? && a.manager.policy != Reset {
      var key := KeyOf(a.manager.policy, invocation);
      ConsultOrder(a.manager, s, key, admission, estimate);
      ExtendRecent(a.recent, key, a.manager.maxLocalEntries);
    }
  }

  lemma {:induction false} FinishLastDistinct(a: Agent, s: StoreState, metadata: Option<JsonObject>, now: int)
    requires LastDistinct(a)
    ensures LastDistinct(AgentFinish(a, s, metadata, now).0)
  {
    if a.phase.Publishing? && a.manager.policy != Reset {
      var key := KeyOf(a.manager.policy, a.phase.invocation);
      SettleValid(a.manager, Some(s), key, a.phase.rejected, a.phase.payload, metadata, now);
      ExtendRecent(a.recent, key, a.manager.maxLocalEntries);
    }
  }

  // ---------- over whole runs ----------

  /** The events of one manager, applied to its agent. */
  ghost function AgentNext(a: Agent, s: StoreState, e: Event): Agent {
    match e
    case Begin(_, invocation, admission, estimate) => AgentBegin(a, s, invocation, admission, estimate).0
    case Compute(_, payload) => AgentCompute(a, payload)
    case Abort(_) => AgentAbort(a)
    case Finish(_, metadata, now) => AgentFinish(a, s, metadata, now).0
    case ClearTables(_) => AgentClear(a)
    case _ => a
  }

  /** The event is a step of this agent. */
  predicate StepOf(e: Event, id: string) {
    match e
    case ForeignGet(_) => false
    case ForeignDelete(_, _) => false
    case _ => e.id == id
  }

  /** A step of the world leaves an agent alone or is a step of that agent. */
  lemma NextIsLocal(w: World, e: Event, id: string)
    requires id in w.agents
    ensures id in Next(w, e).agents
    ensures Next(w, e).agents[id] == if StepOf(e, id) then AgentNext(w.agents[id], w.store, e) else w.agents[id]
  {
  }

  lemma {:induction false} AgentNextBalanced(a: Agent, s: StoreState, e: Event, lost: nat)
    requires Balanced(a, lost)
    ensures Balanced(AgentNext(a, s, e), lost + if GivesUp(a, s, e) then 1 else 0)
  {
    match e
    case Begin(_, invocation, admission, estimate) => BeginBalanced(a, s, invocation, admission, estimate, lost);
    case Finish(_, metadata, now) => FinishBalanced(a, s, metadata, now, lost, e);
    case _ =>
  }

  lemma {:induction false} AgentNextLastDistinct(a: Agent, s: StoreState, e: Event)
    requires LastDistinct(a)
    ensures LastDistinct(AgentNext(a, s, e))
  {
    match e
    case Begin(_, invocation, admission, estimate) => BeginLastDistinct(a, s, invocation, admission, estimate);
    case Finish(_, metadata, now) => FinishLastDistinct(a, s, metadata, now);
    case _ =>
  }

  predicate GivesUpAt(start: World, events: seq<Event>, id: string, i: nat)
    requires i < |events|
  {
    var w := RunWorld(start, events[..i]);
    id in w.agents && StepOf(events[i], id) && GivesUp(w.agents[id], w.store, events[i])
  }

  /** The rejected acquires an agent has given up in a run. */
  function Lost(start: World, events: seq<Event>, id: string): nat {
    if events == [] then 0
    else
      var n := |events| - 1;
      Lost(start, events[..n], id) + if GivesUpAt(start, events, id, n) then 1 else 0
  }

  /**
   In every interleaving each manager's counters equal what its completed acquires add up to
   (rejections also count the acquire in flight and those given up), and its local cache holds
   exactly the last N distinct keys it acquired since the last clear.
   */
  lemma {:induction false} CountersAndCache(start: World, events: seq<Event>, id: string)
    requires Initial(start) && id in start.agents
    ensures id in RunWorld(start, events).agents
    ensures Balanced(RunWorld(start, events).agents[id], Lost(start, events, id))
    ensures LastDistinct(RunWorld(start, events).agents[id])
  {
    if events == [] {
      assert FreshlyStarted(start.agents[id]);
    } else {
      var n := |events| - 1;
      CountersAndCache(start, events[..n], id);
      var w, e := RunWorld(start, events[..n]), events[n];
      NextIsLocal(w, e, id);
      AgentNextBalanced(w.agents[id], w.store, e, Lost(start, events[..n], id));
      AgentNextLastDistinct(w.agents[id], w.store, e);
    }
  }

  lemma NothingLostPrefix(start: World, events: seq<Event>, id: string)
    requires events != []
    ensures var n := |events| - 1;
      (forall i :: 0 <= i < |events| ==> !GivesUpAt(start, events, id, i)) <==>
      (forall i :: 0 <= i < n ==> !GivesUpAt(start, events[..n], id, i)) && !GivesUpAt(start, events, id, n)
  {
    var n := |events| - 1;
    forall i | 0 <= i < n ensures GivesUpAt(start, events[..n], id, i) == GivesUpAt(start, events, id, i) {
      assert events[..n][..i] == events[..i] && events[..n][i] == events[i];
    }
  }

  lemma {:induction false} NothingLost(start: World, events: seq<Event>, id: string)
    ensures Lost(start, events, id) == 0 <==> forall i :: 0 <= i < |events| ==> !GivesUpAt(start, events, id, i)
  {
    if events != [] {
      NothingLost(start, events[..|events| - 1], id);
      NothingLostPrefix(start, events, id);
    }
  }

  /**
   `remote_rejected` counts exactly the REMOTE_REJECTED results if and only if no rejected acquire
   is in flight and none was given up; otherwise it counts more.
   */
  lemma RejectionsExactly(start: World, events: seq<Event>, id: string)
    requires Initial(start) && id in start.agents
    ensures id in RunWorld(start, events).agents
    ensures var a := RunWorld(start, events).agents[id];
      && a.manager.stats.remoteRejected >= Count(a.answers, RemoteRejected)
      && (a.manager.stats.remoteRejected == Count(a.answers, RemoteRejected) <==>
            !PendingRejection(a) && forall i :: 0 <= i < |events| ==> !GivesUpAt(start, events, id, i))
  {
    CountersAndCache(start, events, id);
    NothingLost(start, events, id);
  }

  // ---------- a rejection that is counted and never returned ----------

  function Refuse(record: StateRecord, estimate: Option<int>): bool {
    false
  }

  /** A manager publishes, clears its tables, rejects the fetch, and computes a payload too large for the store. */
  function LosingRun(id: string, invocation: InvocationPlan, small: Bytes, big: Bytes, now: int): seq<Event> {
    [Begin(id, invocation, None, None), Compute(id, small), Finish(id, None, now), ClearTables(id),
     Begin(id, invocation, Some(Refuse), None), Compute(id, big), Finish(id, None, now)]
  }

  lemma PutStores(s: StoreState, key: Key, payload: Bytes, now: int)
    requires ValidStore(s) && !key.Empty() && |payload| <= s.maxBytes
    ensures var s' := StorePut(s, key, payload, map[], None, now).0; s'.maxBytes == s.maxBytes && Lookup(s'.records, key).Some?
  {
    var op := StoreTheorems.Put(key, payload, map[], None, now);
    assert StoreTheorems.PutSucceeds(s, op);
    StoreTheorems.StepVersion(s, op, key);
  }

  lemma FirstAcquire(a: Agent, s: StoreState, invocation: InvocationPlan, payload: Bytes, now: int)
    requires FreshlyStarted(a) && a.manager.policy != Reset && s == EmptyStore(s.maxBytes) && |payload| <= s.maxBytes && s.maxBytes > 0
    ensures var (a1, s1) := AgentBegin(a, s, invocation, None, None);
      var (a2, s2) := AgentFinish(AgentCompute(a1, payload), s1, None, now);
      && a2.manager.policy == a.manager.policy && a2.phase.Idle? && Count(a2.answers, RemoteRejected) == 0
      && a2.manager.stats.remoteRejected == 0
      && s2.maxBytes == s.maxBytes && Lookup(s2.records, KeyOf(a.manager.policy, invocation)).Some?
  {
    var key := KeyOf(a.manager.policy, invocation);
    var a1 := a.(phase := Publishing(invocation, false, payload));
    PutStores(s, key, payload, now);
    PublishStep(a1, s, None, now);
    SettleCounts(a.manager, s, key, false, payload, None, now);
    var a2 := AgentFinish(a1, s, None, now).0;
    assert a2.answers == [] + [a2.answers[0]];
    CountNext([], a2.answers[0], RemoteRejected);
  }

  lemma {:induction false} SecondAcquire(a: Agent, s: StoreState, invocation: InvocationPlan, payload: Bytes, now: int)
    requires a.phase.Idle? && a.manager.policy != Reset && a.manager.local == map[]
    requires Lookup(s.records, KeyOf(a.manager.policy, invocation)).Some? && |payload| > s.maxBytes
    ensures var (a1, s1) := AgentBegin(a, s, invocation, Some(Refuse), None);
      var (a2, s2) := AgentFinish(AgentCompute(a1, payload), s1, None, now);
      && a2.phase.Idle? && a2.answers == a.answers
      && a2.manager.stats.remoteRejected == a.manager.stats.remoteRejected + 1
  {
    var key := KeyOf(a.manager.policy, invocation);
    BeginStep(a, s, invocation, Some(Refuse), None);
    var (a1, s1) := AgentBegin(a, s, invocation, Some(Refuse), None);
    PublishStep(AgentCompute(a1, payload), s1, None, now);
    SettleCounts(a1.manager, s1, key, true, payload, None, now);
  }

  /** One acquire of one agent, with nothing in between. */
  function Acquired(w: World, id: string, invocation: InvocationPlan, admission: Option<Admission>, payload: Bytes, now: int): World {
    Next(Next(Next(w, Begin(id, invocation, admission, None)), Compute(id, payload)), Finish(id, None, now))
  }

  lemma AcquiredAgent(w: World, id: string, invocation: InvocationPlan, admission: Option<Admission>, payload: Bytes, now: int)
    requires id in w.agents
    ensures var (a1, s1) := AgentBegin(w.agents[id], w.store, invocation, admission, None);
      var w' := Acquired(w, id, invocation, admission, payload, now);
      id in w'.agents && (w'.agents[id], w'.store) == AgentFinish(AgentCompute(a1, payload), s1, None, now)
  {
  }

  lemma FoldSeven<S, E>(step: (S, E) -> S, s: S, e: seq<E>)
    requires |e| == 7
    ensures Fold(step, s, e) == step(step(step(step(step(step(step(s, e[0]), e[1]), e[2]), e[3]), e[4]), e[5]), e[6])
  {
    assert e[..0] == [] && e[..7] == e;
    FoldThree(step, s, e, 0);
    FoldPrefix(step, s, e, 3);
    FoldThree(step, s, e, 4);
  }

  lemma LosingUnrolled(w: World, id: string, invocation: InvocationPlan, small: Bytes, big: Bytes, now: int)
    ensures RunWorld(w, LosingRun(id, invocation, small, big, now)) ==
      Acquired(Next(Acquired(w, id, invocation, None, small, now), ClearTables(id)), id, invocation, Some(Refuse), big, now)
  {
    var e := LosingRun(id, invocation, small, big, now);
    RunIsFold(w, e);
    FoldSeven(Next, w, e);
  }

  /** After the first acquire and the clear, the key is in the store and in no local table. */
  lemma ReadyToReject(w: World, id: string, invocation: InvocationPlan, small: Bytes, now: int)
    requires Initial(w) && id in w.agents && w.agents[id].manager.policy != Reset && |small| <= w.store.maxBytes
    ensures var w' := Next(Acquired(w, id, invocation, None, small, now), ClearTables(id));
      && id in w'.agents && w'.store.maxBytes == w.store.maxBytes
      && var a := w'.agents[id];
         && a.phase.Idle? && a.manager.policy == w.agents[id].manager.policy && a.manager.local == map[]
         && a.manager.stats.remoteRejected == 0 && Count(a.answers, RemoteRejected) == 0
         && Lookup(w'.store.records, KeyOf(a.manager.policy, invocation)).Some?
  {
    assert FreshlyStarted(w.agents[id]);
    FirstAcquire(w.agents[id], w.store, invocation, small, now);
    AcquiredAgent(w, id, invocation, None, small, now);
    NextIsLocal(Acquired(w, id, invocation, None, small, now), ClearTables(id), id);
  }

  /** So `remote_rejected` can exceed the number of REMOTE_REJECTED results. */
  lemma RejectionCanBeLost(w: World, id: string, invocation: InvocationPlan, small: Bytes, big: Bytes, now: int)
    requires Initial(w) && id in w.agents && w.agents[id].manager.policy != Reset
    requires |small| <= w.store.maxBytes < |big|
    ensures var end := RunWorld(w, LosingRun(id, invocation, small, big, now));
      && id in end.agents && end.agents[id].phase.Idle?
      && end.agents[id].manager.stats.remoteRejected == 1 && Count(end.agents[id].answers, RemoteRejected) == 0
  {
    LosingUnrolled(w, id, invocation, small, big, now);
    ReadyToReject(w, id, invocation, small, now);
    var w4 := Next(Acquired(w, id, invocation, None, small, now), ClearTables(id));
    SecondAcquire(w4.agents[id], w4.store, invocation, big, now);
    AcquiredAgent(w4, id, invocation, Some(Refuse), big, now);
  }

  // ---------- local hits ----------

  /** A begun acquire is a local hit exactly when its key is among the last N distinct keys acquired. */
  lemma LocalHitExactly(a: Agent, s: StoreState, invocation: InvocationPlan, admission: Option<Admission>, estimate: Option<int>)
    requires LastDistinct(a) && a.phase.Idle? && a.manager.policy != Reset
    ensures var key := KeyOf(a.manager.policy, invocation);
      var a' := AgentBegin(a, s, invocation, admission, estimate).0;
      key in TakeLast(RecentKeys(a.recent), a.manager.maxLocalEntries) <==>
      |a'.answers| == |a.answers| + 1 && a'.answers[|a.answers|].result.decision == LocalHit
  {
  }
}
