/** How the local bound affects a served trace: a larger one keeps every local hit of a smaller one. */
module LocalReuse {
  import opened Wrappers
  import opened Ordering
  import opened Json
  import opened Store
  import opened Manager
  import opened Runtime
  import opened Interleaving
  import opened Ledger
  import opened Dominance

  /** Every acquire of the trace completed. */
  ghost predicate AllComplete(r: RuntimeState, calls: seq<Call>)
    decreases |calls|
  {
    calls == [] ||
    (AllComplete(r, calls[..|calls| - 1]) && Outcome(Serve(r, calls[..|calls| - 1]), calls[|calls| - 1]).1.Ok?)
  }

  /** The keys asked of one instance, in order. */
  function KeysAsked(policy: Policy, calls: seq<Call>, i: string): seq<Key> {
    if calls == [] then []
    else
      var n := |calls| - 1;
      KeysAsked(policy, calls[..n], i) + if calls[n].invocation.instance == i then [KeyOf(policy, calls[n].invocation)] else []
  }

  /** The decision on the n-th call. */
  function DecisionAt(r: RuntimeState, calls: seq<Call>, n: nat): Option<Decision>
    requires n < |calls|
  {
    match Outcome(Serve(r, calls[..n]), calls[n]).1
    case Ok(result) => Some(result.decision)
    case Err(_) => None
  }

  /** A manager whose local list is the last distinct keys of a history. */
  ghost predicate Follows(m: ManagerState, policy: Policy, limit: nat, history: seq<Key>) {
    && ValidManager(m) && m.policy == policy && m.maxLocalEntries == limit
    && m.localOrder == TakeLast(RecentKeys(history), limit)
  }

  /** A completed acquire makes its key the most recent one; it is a local hit exactly when the key was in the list. */
  lemma {:induction false} AcquireFollows(m: ManagerState, s: StoreState, policy: Policy, limit: nat, history: seq<Key>, key: Key, payload: Bytes,
                       metadata: JsonObject, now: int)
    requires policy != Reset && limit > 0 && Follows(m, policy, limit, history)
    requires ManagerAcquire(m, Some(s), key, Some(payload), Some(metadata), None, None, now).2.Ok?
    ensures var (m', s', result) := ManagerAcquire(m, Some(s), key, Some(payload), Some(metadata), None, None, now);
      && Follows(m', policy, limit, history + [key])
      && (result.value.decision == LocalHit <==> key in TakeLast(RecentKeys(history), limit))
  {
    ConsultOrder(m, s, key, None, None);
    ExtendRecent(history, key, limit);
    assert key in m.local <==> key in Elements(m.localOrder);
    var (m1, s1, answer) := Consult(m, Some(s), key, None, None);
    if answer.Miss? {
      SettleValid(m1, s1, key, answer.rejected, payload, Some(metadata), now);
    }
  }

  ghost predicate AllFollow(r: RuntimeState, policy: Policy, limit: nat, calls: seq<Call>) {
    forall i :: i in r.managers ==> Follows(r.managers[i], policy, limit, KeysAsked(policy, calls, i))
  }

  lemma {:induction false} CallFollows(r: RuntimeState, policy: Policy, limit: nat, before: seq<Call>, c: Call)
    requires policy != Reset && limit > 0 && AllFollow(r, policy, limit, before) && Outcome(r, c).1.Ok?
    ensures AllFollow(Outcome(r, c).0, policy, limit, before + [c])
    ensures Outcome(r, c).1.value.decision == LocalHit <==>
            KeyOf(policy, c.invocation) in TakeLast(RecentKeys(KeysAsked(policy, before, c.invocation.instance)), limit)
  {
    var i, key := c.invocation.instance, KeyOf(policy, c.invocation);
    AcquireFollows(r.managers[i], r.store, policy, limit, KeysAsked(policy, before, i), key, c.payload, c.metadata, c.now);
    var r' := Outcome(r, c).0;
    assert (before + [c])[..|before|] == before;
    forall j | j in r'.managers ensures Follows(r'.managers[j], policy, limit, KeysAsked(policy, before + [c], j)) {
      if j != i { assert KeysAsked(policy, before + [c], j) == KeysAsked(policy, before, j); }
    }
  }

  lemma StartFollows(policy: Policy, instances: seq<string>, limit: nat, store: StoreState)
    requires limit > 0
    ensures AllFollow(FreshRuntime(policy, instances, limit, store), policy, limit, [])
  {
    forall i ensures RecentKeys(KeysAsked(policy, [], i)) == [] {}
  }

  lemma ServeNext(r: RuntimeState, before: seq<Call>, last: Call)
    ensures Serve(r, before + [last]) == Outcome(Serve(r, before), last).0
    ensures AllComplete(r, before + [last]) <==> AllComplete(r, before) && Outcome(Serve(r, before), last).1.Ok?
  {
    assert (before + [last])[..|before|] == before;
  }

  lemma {:induction false} ServeFollows(r: RuntimeState, policy: Policy, limit: nat, calls: seq<Call>)
    requires policy != Reset && limit > 0
    requires AllFollow(r, policy, limit, []) && AllComplete(r, calls)
    ensures AllFollow(Serve(r, calls), policy, limit, calls)
  {
    if calls != [] {
      var before, last := calls[..|calls| - 1], calls[|calls| - 1];
      assert calls == before + [last];
      ServeNext(r, before, last);
      ServeFollows(r, policy, limit, before);
      CallFollows(Serve(r, before), policy, limit, before, last);
    }
  }

  lemma {:induction false} CompletePrefix(r: RuntimeState, calls: seq<Call>, n: nat)
    requires n < |calls| && AllComplete(r, calls)
    ensures AllComplete(r, calls[..n]) && Outcome(Serve(r, calls[..n]), calls[n]).1.Ok?
  {
    if n < |calls| - 1 {
      CompletePrefix(r, calls[..|calls| - 1], n);
      assert calls[..|calls| - 1][..n] == calls[..n];
    }
  }

  /** A call is a local hit exactly when its key is among the last N distinct keys asked of its instance. */
  lemma {:induction false} ServedHitExactly(policy: Policy, instances: seq<string>, limit: nat, store: StoreState, calls: seq<Call>, n: nat)
    requires policy != Reset && limit > 0 && n < |calls|
    requires AllComplete(FreshRuntime(policy, instances, limit, store), calls)
    ensures DecisionAt(FreshRuntime(policy, instances, limit, store), calls, n) == Some(LocalHit) <==>
      KeyOf(policy, calls[n].invocation) in
        TakeLast(RecentKeys(KeysAsked(policy, calls[..n], calls[n].invocation.instance)), limit)
  {
    var start := FreshRuntime(policy, instances, limit, store);
    CompletePrefix(start, calls, n);
    StartFollows(policy, instances, limit, store);
    ServeFollows(start, policy, limit, calls[..n]);
    CallFollows(Serve(start, calls[..n]), policy, limit, calls[..n], calls[n]);
  }

  /**
   The same trace served with a larger local bound, whatever the two stores do: every local hit
   of the smaller bound is a local hit of the larger one.
   */
  lemma {:induction false} LargerLocalKeepsHits(policy: Policy, instances: seq<string>, small: nat, large: nat, s: StoreState, s': StoreState,
                             calls: seq<Call>, n: nat)
    requires policy != Reset && 0 < small <= large && n < |calls|
    requires AllComplete(FreshRuntime(policy, instances, small, s), calls)
    requires AllComplete(FreshRuntime(policy, instances, large, s'), calls)
    requires DecisionAt(FreshRuntime(policy, instances, small, s), calls, n) == Some(LocalHit)
    ensures DecisionAt(FreshRuntime(policy, instances, large, s'), calls, n) == Some(LocalHit)
  {
    ServedHitExactly(policy, instances, small, s, calls, n);
    ServedHitExactly(policy, instances, large, s', calls, n);
    var keys := RecentKeys(KeysAsked(policy, calls[..n], calls[n].invocation.instance));
    LongerTail(keys, small, large);
  }

  lemma LongerTail(keys: seq<Key>, small: nat, large: nat)
    requires small <= large
    ensures forall k :: k in TakeLast(keys, small) ==> k in TakeLast(keys, large)
  {
    var s, l := TakeLast(keys, small), TakeLast(keys, large);
    assert s == l[|l| - |s|..];
  }
}
