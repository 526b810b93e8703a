/**
 Exact decision counts when acquires interleave.  Every in-flight acquire of a key that is
 not yet stored will recompute, so what the managers recompute beyond the distinct keys is
 exactly the number of acquires that missed a key already in flight elsewhere.
 */
module Contention {
  import opened Wrappers
  import opened Ordering
  import opened Store
  import opened Manager
  import opened Runtime
  import opened Interleaving
  import opened Dominance

  // ---------- what is in flight, and what has been acquired ----------

  function AgentKey(a: Agent): Key
    requires !a.phase.Idle?
  {
    KeyOf(a.manager.policy, a.phase.invocation)
  }

  ghost function InFlight(agents: map<string, Agent>): set<string> {
    set id | id in agents && !agents[id].phase.Idle?
  }

  ghost function InFlightKeys(agents: map<string, Agent>): set<Key> {
    set id | id in agents && !agents[id].phase.Idle? :: AgentKey(agents[id])
  }

  ghost function AnswerKeys(answers: seq<Answered>): set<Key> {
    set answer | answer in answers :: answer.result.key
  }

  /** The keys of all completed acquires. */
  ghost function AcquiredKeys(agents: map<string, Agent>): set<Key> {
    set id, answer | id in agents && answer in agents[id].answers :: answer.result.key
  }

  ghost function Managers(agents: map<string, Agent>): map<string, ManagerState> {
    map id | id in agents :: agents[id].manager
  }

  ghost function SummedRecomputes(w: World, ids: seq<string>): nat {
    Sum(Recomputes, Managers(w.agents), ids)
  }

  // ---------- undisturbed runs ----------

  /** No admission rule, no failed acquire, no record deleted or evicted. */
  ghost predicate Quiet(w: World, e: Event) {
    && Next(w, e).store.evictions == w.store.evictions
    && match e
       case Begin(_, _, admission, _) => admission == None
       case Abort(id) => id in w.agents ==> !w.agents[id].phase.Computing?
       case Finish(id, _, _) =>
         id in w.agents && w.agents[id].phase.Publishing? ==> |w.agents[id].phase.payload| <= w.store.maxBytes
       case ForeignDelete(key, expected) => StoreDelete(w.store, key, expected).1 != Ok(true)
       case _ => true
  }

  ghost predicate QuietRun(start: World, events: seq<Event>) {
    forall i :: 0 <= i < |events| ==> Quiet(RunWorld(start, events[..i]), events[i])
  }

  /** A begun acquire finds its key neither in its local tables nor in the store, while another agent computes or publishes it. */
  ghost predicate Overtakes(w: World, e: Event) {
    && e.Begin? && e.id in w.agents && w.agents[e.id].phase.Idle?
    && var a := w.agents[e.id];
       var key := KeyOf(a.manager.policy, e.invocation);
       key !in a.manager.local && key !in KeysOf(w.store.records) && key in InFlightKeys(w.agents)
  }

  /** A publication finds its key already in the store. */
  ghost predicate Republishes(w: World, e: Event) {
    && e.Finish? && e.id in w.agents && w.agents[e.id].phase.Publishing?
    && AgentKey(w.agents[e.id]) in KeysOf(w.store.records)
  }

  ghost function Overtakings(start: World, events: seq<Event>): nat {
    if events == [] then 0
    else
      var n := |events| - 1;
      Overtakings(start, events[..n]) + if Overtakes(RunWorld(start, events[..n]), events[n]) then 1 else 0
  }

  ghost function Republications(start: World, events: seq<Event>): nat {
    if events == [] then 0
    else
      var n := |events| - 1;
      Republications(start, events[..n]) + if Republishes(RunWorld(start, events[..n]), events[n]) then 1 else 0
  }

  // ---------- the invariant ----------

  ghost predicate Sharing(w: World, policy: Policy, ids: seq<string>) {
    && ValidStore(w.store) && Distinct(ids) && w.agents.Keys == Elements(ids)
    && (forall id :: id in w.agents ==> Sharer(w.agents[id], w.store, policy))
    && AcquiredKeys(w.agents) == KeysOf(w.store.records)
  }

  /** Local tables hold stored keys only. */
  ghost predicate Sharer(a: Agent, s: StoreState, policy: Policy) {
    ValidManager(a.manager) && a.manager.policy == policy && a.manager.local.Keys <= KeysOf(s.records)
  }

  ghost predicate Tallied(w: World, ids: seq<string>, overtakings: nat, republications: nat) {
    var stored := KeysOf(w.store.records);
    && SummedRecomputes(w, ids) == |stored| + republications
    && SummedRecomputes(w, ids) + |InFlight(w.agents)| == |stored + InFlightKeys(w.agents)| + overtakings
  }

  // ---------- one agent's step, seen from the world ----------

  lemma UpdateFlight(agents: map<string, Agent>, id: string, a: Agent)
    requires id in agents
    ensures InFlight(agents[id := a]) == if a.phase.Idle? then InFlight(agents) - {id} else InFlight(agents) + {id}
  {
  }

  lemma UpdateTakeoff(agents: map<string, Agent>, id: string, a: Agent)
    requires id in agents && agents[id].phase.Idle? && !a.phase.Idle?
    ensures InFlightKeys(agents[id := a]) == InFlightKeys(agents) + {AgentKey(a)}
  {
    var after := agents[id := a];
    forall k | k in InFlightKeys(agents) ensures k in InFlightKeys(after) {
      var other :| other in agents && !agents[other].phase.Idle? && AgentKey(agents[other]) == k;
      assert other in after && after[other] == agents[other];
    }
    assert AgentKey(after[id]) in InFlightKeys(after);
  }

  lemma UpdateLanding(agents: map<string, Agent>, id: string, a: Agent)
    requires id in agents && !agents[id].phase.Idle? && a.phase.Idle?
    ensures InFlightKeys(agents[id := a]) + {AgentKey(agents[id])} == InFlightKeys(agents)
  {
    var after := agents[id := a];
    forall k | k in InFlightKeys(agents) ensures k in InFlightKeys(after) + {AgentKey(agents[id])} {
      var other :| other in agents && !agents[other].phase.Idle? && AgentKey(agents[other]) == k;
      assert other != id ==> other in after && after[other] == agents[other];
    }
    assert AgentKey(agents[id]) in InFlightKeys(agents);
  }

  lemma UpdateSameFlight(agents: map<string, Agent>, id: string, a: Agent)
    requires id in agents && a.phase.Idle? == agents[id].phase.Idle?
    requires !a.phase.Idle? ==> AgentKey(a) == AgentKey(agents[id])
    ensures InFlightKeys(agents[id := a]) == InFlightKeys(agents) && InFlight(agents[id := a]) == InFlight(agents)
  {
    var after := agents[id := a];
    forall k ensures k in InFlightKeys(after) <==> k in InFlightKeys(agents) {
      if k in InFlightKeys(agents) {
        var other :| other in agents && !agents[other].phase.Idle? && AgentKey(agents[other]) == k;
        assert other in after && !after[other].phase.Idle? && AgentKey(after[other]) == k;
      }
      if k in InFlightKeys(after) {
        var other :| other in after && !after[other].phase.Idle? && AgentKey(after[other]) == k;
        assert other in agents && !agents[other].phase.Idle? && AgentKey(agents[other]) == k;
      }
    }
  }

  lemma UpdateAcquired(agents: map<string, Agent>, id: string, a: Agent, last: seq<Answered>)
    requires id in agents && a.answers == agents[id].answers + last
    ensures AcquiredKeys(agents[id := a]) == AcquiredKeys(agents) + AnswerKeys(last)
  {
    var after := agents[id := a];
    forall k | k in AcquiredKeys(agents) + AnswerKeys(last) ensures k in AcquiredKeys(after) {
      if k in AnswerKeys(last) {
        var answer :| answer in last && answer.result.key == k;
        assert answer in after[id].answers;
      } else {
        var other, answer :| other in agents && answer in agents[other].answers && answer.result.key == k;
        assert other in after && answer in after[other].answers;
      }
    }
  }

  lemma UpdateManagers(agents: map<string, Agent>, id: string, a: Agent)
    requires id in agents
    ensures Managers(agents[id := a]) == Managers(agents)[id := a.manager]
  {
  }

  /** The world after one agent's step. */
  function Replaced(w: World, id: string, a: Agent, s: StoreState): World {
    w.(agents := w.agents[id := a], store := s)
  }

  /** The recomputes of one agent's step, summed. */
  lemma UpdateRecomputes(w: World, ids: seq<string>, id: string, a: Agent, s: StoreState)
    requires Distinct(ids) && w.agents.Keys == Elements(ids) && id in w.agents
    ensures SummedRecomputes(Replaced(w, id, a, s), ids) ==
            SummedRecomputes(w, ids) - w.agents[id].manager.stats.recomputes + a.manager.stats.recomputes
  {
    UpdateManagers(w.agents, id, a);
    assert id in Elements(ids);
    SumUpdate(Recomputes, Managers(w.agents), ids, id, a.manager);
  }

  lemma SharersKept(w: World, policy: Policy, ids: seq<string>, id: string, a: Agent, s: StoreState, last: seq<Answered>)
    requires Sharing(w, policy, ids) && id in w.agents
    requires ValidStore(s) && Sharer(a, s, policy) && a.answers == w.agents[id].answers + last
    requires KeysOf(s.records) == KeysOf(w.store.records) + AnswerKeys(last)
    ensures Sharing(Replaced(w, id, a, s), policy, ids)
  {
    UpdateAcquired(w.agents, id, a, last);
    assert w.agents[id := a].Keys == w.agents.Keys;
  }

  /** A step that neither takes off nor lands. */
  lemma LevelStep(w: World, ids: seq<string>, o: nat, r: nat, id: string, a: Agent, s: StoreState)
    requires Tallied(w, ids, o, r) && Distinct(ids) && w.agents.Keys == Elements(ids) && id in w.agents
    requires a.phase.Idle? == w.agents[id].phase.Idle?
    requires !a.phase.Idle? ==> AgentKey(a) == AgentKey(w.agents[id])
    requires a.manager.stats.recomputes == w.agents[id].manager.stats.recomputes
    requires KeysOf(s.records) == KeysOf(w.store.records)
    ensures Tallied(Replaced(w, id, a, s), ids, o, r)
  {
    UpdateSameFlight(w.agents, id, a);
    UpdateRecomputes(w, ids, id, a, s);
  }

  lemma TakeoffCounts(agents: map<string, Agent>, stored: set<Key>, id: string, a: Agent)
    requires id in agents && agents[id].phase.Idle? && !a.phase.Idle? && AgentKey(a) !in stored
    ensures |InFlight(agents[id := a])| == |InFlight(agents)| + 1
    ensures |stored + InFlightKeys(agents[id := a])| ==
            |stored + InFlightKeys(agents)| + if AgentKey(a) in InFlightKeys(agents) then 0 else 1
  {
    var flying, key := InFlightKeys(agents), AgentKey(a);
    UpdateTakeoff(agents, id, a);
    UpdateFlight(agents, id, a);
    assert id !in InFlight(agents);
    assert stored + (flying + {key}) == (stored + flying) + {key};
    GrownSize(stored + flying, key);
  }

  /** A miss: one more acquire in flight, and one more key unless the key is already in flight. */
  lemma Takeoff(w: World, ids: seq<string>, o: nat, r: nat, id: string, a: Agent)
    requires Tallied(w, ids, o, r) && Distinct(ids) && w.agents.Keys == Elements(ids) && id in w.agents
    requires w.agents[id].phase.Idle? && !a.phase.Idle? && a.manager == w.agents[id].manager
    requires AgentKey(a) !in KeysOf(w.store.records)
    ensures Tallied(Replaced(w, id, a, w.store), ids, o + if AgentKey(a) in InFlightKeys(w.agents) then 1 else 0, r)
  {
    TakeoffCounts(w.agents, KeysOf(w.store.records), id, a);
    UpdateRecomputes(w, ids, id, a, w.store);
  }

  lemma LandingCounts(agents: map<string, Agent>, stored: set<Key>, id: string, a: Agent)
    requires id in agents && !agents[id].phase.Idle? && a.phase.Idle?
    ensures |InFlight(agents[id := a])| == |InFlight(agents)| - 1
    ensures (stored + {AgentKey(agents[id])}) + InFlightKeys(agents[id := a]) == stored + InFlightKeys(agents)
    ensures |stored + {AgentKey(agents[id])}| == |stored| + if AgentKey(agents[id]) in stored then 0 else 1
  {
    UpdateLanding(agents, id, a);
    UpdateFlight(agents, id, a);
    assert id in InFlight(agents);
    GrownSize(stored, AgentKey(agents[id]));
  }

  /** A publication: one acquire less in flight, one more recompute, and the key is stored. */
  lemma Landing(w: World, ids: seq<string>, o: nat, r: nat, id: string, a: Agent, s: StoreState)
    requires Tallied(w, ids, o, r) && Distinct(ids) && w.agents.Keys == Elements(ids) && id in w.agents
    requires !w.agents[id].phase.Idle? && a.phase.Idle?
    requires a.manager.stats.recomputes == w.agents[id].manager.stats.recomputes + 1
    requires KeysOf(s.records) == KeysOf(w.store.records) + {AgentKey(w.agents[id])}
    ensures Tallied(Replaced(w, id, a, s), ids, o, r + if AgentKey(w.agents[id]) in KeysOf(w.store.records) then 1 else 0)
  {
    LandingCounts(w.agents, KeysOf(w.store.records), id, a);
    UpdateRecomputes(w, ids, id, a, s);
  }

  // ---------- the steps of the world ----------

  lemma ConsultUnruled(m: ManagerState, s: StoreState, key: Key, estimate: Option<int>)
    ensures Consult(m, Some(s), key, None, estimate) == Consult(m, Some(s), key, None, None)
  {
  }

  /** What a hit leaves behind. */
  lemma HitEffect(a: Agent, s: StoreState, policy: Policy, invocation: InvocationPlan, estimate: Option<int>)
    requires policy != Reset && ValidStore(s) && Sharer(a, s, policy) && a.phase.Idle?
    requires Consult(a.manager, Some(s), KeyOf(policy, invocation), None, estimate).2.Hit?
    ensures var (a', s') := AgentBegin(a, s, invocation, None, estimate);
      && ValidStore(s') && Sharer(a', s', policy) && a'.phase.Idle?
      && KeysOf(s'.records) == KeysOf(s.records) && KeyOf(policy, invocation) in KeysOf(s.records)
      && a'.manager.stats.recomputes == a.manager.stats.recomputes
      && |a'.answers| == |a.answers| + 1 && a'.answers == a.answers + [a'.answers[|a.answers|]]
      && a'.answers[|a.answers|].result.key == KeyOf(policy, invocation)
  {
    var key := KeyOf(policy, invocation);
    BeginStep(a, s, invocation, None, estimate);
    ConsultUnruled(a.manager, s, key, estimate);
    ConsultEffect(a.manager, s, key);
    assert KeysOf(s.records) + {key} == KeysOf(s.records);
  }

  /** What a miss leaves behind. */
  lemma MissEffect(a: Agent, s: StoreState, policy: Policy, invocation: InvocationPlan, estimate: Option<int>)
    requires policy != Reset && ValidStore(s) && Sharer(a, s, policy) && a.phase.Idle?
    requires Consult(a.manager, Some(s), KeyOf(policy, invocation), None, estimate).2.Miss?
    ensures AgentBegin(a, s, invocation, None, estimate) == (a.(phase := Computing(invocation, false)), s)
    ensures KeyOf(policy, invocation) !in a.manager.local && KeyOf(policy, invocation) !in KeysOf(s.records)
  {
    var key := KeyOf(policy, invocation);
    BeginStep(a, s, invocation, None, estimate);
    ConsultUnruled(a.manager, s, key, estimate);
    ConsultEffect(a.manager, s, key);
  }

  lemma AnswerSharing(w: World, policy: Policy, ids: seq<string>, id: string, a: Agent, s: StoreState, last: Answered)
    requires Sharing(w, policy, ids) && id in w.agents
    requires ValidStore(s) && Sharer(a, s, policy)
    requires KeysOf(s.records) == KeysOf(w.store.records) && last.result.key in KeysOf(s.records)
    requires a.answers == w.agents[id].answers + [last]
    ensures Sharing(Replaced(w, id, a, s), policy, ids)
  {
    assert AnswerKeys([last]) == {last.result.key};
    assert KeysOf(s.records) + {last.result.key} == KeysOf(s.records);
    SharersKept(w, policy, ids, id, a, s, [last]);
  }

  lemma {:induction false} MissTallied(w: World, policy: Policy, ids: seq<string>, o: nat, r: nat, id: string, a: Agent)
    requires policy != Reset && Sharing(w, policy, ids) && Tallied(w, ids, o, r) && id in w.agents && w.agents[id].phase.Idle?
    requires !a.phase.Idle? && a == w.agents[id].(phase := a.phase) && AgentKey(a) !in KeysOf(w.store.records)
    ensures Sharing(Replaced(w, id, a, w.store), policy, ids)
    ensures Tallied(Replaced(w, id, a, w.store), ids, o + if AgentKey(a) in InFlightKeys(w.agents) then 1 else 0, r)
  {
    assert AnswerKeys([]) == {};
    SharersKept(w, policy, ids, id, a, w.store, []);
    Takeoff(w, ids, o, r, id, a);
  }

  lemma {:induction false} BeginTallied(w: World, policy: Policy, ids: seq<string>, o: nat, r: nat, e: Event)
    requires policy != Reset && Sharing(w, policy, ids) && Tallied(w, ids, o, r)
    requires e.Begin? && e.admission == None && e.id in w.agents && w.agents[e.id].phase.Idle?
    ensures Sharing(Next(w, e), policy, ids)
    ensures Tallied(Next(w, e), ids, o + if Overtakes(w, e) then 1 else 0, r)
  {
    var id, a := e.id, w.agents[e.id];
    assert Sharer(a, w.store, policy);
    var (a', s') := AgentBegin(a, w.store, e.invocation, None, e.estimate);
    assert Next(w, e) == Replaced(w, id, a', s');
    if Consult(a.manager, Some(w.store), KeyOf(policy, e.invocation), None, e.estimate).2.Hit? {
      HitEffect(a, w.store, policy, e.invocation, e.estimate);
      AnswerSharing(w, policy, ids, id, a', s', a'.answers[|a.answers|]);
      LevelStep(w, ids, o, r, id, a', s');
      ConsultFinds(a, w.store, policy, e);
    } else {
      MissEffect(a, w.store, policy, e.invocation, e.estimate);
      MissTallied(w, policy, ids, o, r, id, a');
    }
  }

  lemma ConsultFinds(a: Agent, s: StoreState, policy: Policy, e: Event)
    requires e.Begin? && Consult(a.manager, Some(s), KeyOf(policy, e.invocation), None, e.estimate).2.Hit?
    ensures KeyOf(policy, e.invocation) in a.manager.local || KeyOf(policy, e.invocation) in KeysOf(s.records)
  {
  }

  /** A publication that succeeds without evicting stores the key, and remembers no other. */
  lemma PublishEffect(a: Agent, s: StoreState, e: Event)
    requires a.manager.policy != Reset && ValidManager(a.manager) && ValidStore(s) && e.Finish? && a.phase.Publishing?
    requires |a.phase.payload| <= s.maxBytes && AgentFinish(a, s, e.metadata, e.now).1.evictions == s.evictions
    ensures var (a', s') := AgentFinish(a, s, e.metadata, e.now);
      && ValidStore(s') && ValidManager(a'.manager) && a'.manager.policy == a.manager.policy
      && KeysOf(s'.records) == KeysOf(s.records) + {AgentKey(a)}
      && a'.manager.local.Keys <= a.manager.local.Keys + {AgentKey(a)}
      && a'.manager.stats.recomputes == a.manager.stats.recomputes + 1 && a'.phase.Idle?
      && |a'.answers| == |a.answers| + 1 && a'.answers == a.answers + [a'.answers[|a.answers|]]
      && a'.answers[|a.answers|].result.key == AgentKey(a)
  {
    var key, payload := AgentKey(a), a.phase.payload;
    PublishStep(a, s, e.metadata, e.now);
    PutKeys(s, key, payload, OrEmpty(e.metadata), e.now);
    SettleValid(a.manager, Some(s), key, a.phase.rejected, payload, e.metadata, e.now);
    RememberKeys(a.manager, StateRecord(key, VersionOf(s, key) + 1, payload, OrEmpty(e.metadata), e.now));
  }

  lemma {:induction false} FinishTallied(w: World, policy: Policy, ids: seq<string>, o: nat, r: nat, e: Event)
    requires policy != Reset && Sharing(w, policy, ids) && Tallied(w, ids, o, r) && Quiet(w, e)
    requires e.Finish? && e.id in w.agents && w.agents[e.id].phase.Publishing?
    ensures Sharing(Next(w, e), policy, ids)
    ensures Tallied(Next(w, e), ids, o, r + if Republishes(w, e) then 1 else 0)
  {
    var a := w.agents[e.id];
    assert Sharer(a, w.store, policy);
    var (a', s') := AgentFinish(a, w.store, e.metadata, e.now);
    assert Next(w, e) == Replaced(w, e.id, a', s');
    PublishEffect(a, w.store, e);
    PublishedSharing(w, policy, ids, e.id, a', s', a'.answers[|a.answers|]);
    Landing(w, ids, o, r, e.id, a', s');
  }

  lemma PublishedSharing(w: World, policy: Policy, ids: seq<string>, id: string, a: Agent, s: StoreState, last: Answered)
    requires Sharing(w, policy, ids) && id in w.agents && !w.agents[id].phase.Idle?
    requires ValidStore(s) && ValidManager(a.manager) && a.manager.policy == policy
    requires KeysOf(s.records) == KeysOf(w.store.records) + {AgentKey(w.agents[id])}
    requires a.manager.local.Keys <= w.agents[id].manager.local.Keys + {AgentKey(w.agents[id])}
    requires a.answers == w.agents[id].answers + [last] && last.result.key == AgentKey(w.agents[id])
    ensures Sharing(Replaced(w, id, a, s), policy, ids)
  {
    assert AnswerKeys([last]) == {AgentKey(w.agents[id])};
    assert Sharer(w.agents[id], w.store, policy);
    SharersKept(w, policy, ids, id, a, s, [last]);
  }

  /** Steps that touch only the store's order. */
  lemma OrderTallied(w: World, policy: Policy, ids: seq<string>, o: nat, r: nat, s: StoreState)
    requires Sharing(w, policy, ids) && Tallied(w, ids, o, r)
    requires ValidStore(s) && KeysOf(s.records) == KeysOf(w.store.records)
    ensures Sharing(w.(store := s), policy, ids) && Tallied(w.(store := s), ids, o, r)
  {
  }

  /** Steps of one agent that change no counter, no answer and no in-flight key. */
  lemma {:induction false} QuietAgent(w: World, policy: Policy, ids: seq<string>, o: nat, r: nat, id: string, a: Agent)
    requires Sharing(w, policy, ids) && Tallied(w, ids, o, r) && id in w.agents
    requires ValidManager(a.manager) && a.manager.policy == policy && a.manager.local.Keys <= w.agents[id].manager.local.Keys
    requires a.manager.stats == w.agents[id].manager.stats && a.answers == w.agents[id].answers
    requires a.phase.Idle? == w.agents[id].phase.Idle?
    requires !a.phase.Idle? ==> AgentKey(a) == AgentKey(w.agents[id])
    ensures Sharing(Replaced(w, id, a, w.store), policy, ids) && Tallied(Replaced(w, id, a, w.store), ids, o, r)
  {
    assert AnswerKeys([]) == {};
    SharersKept(w, policy, ids, id, a, w.store, []);
    LevelStep(w, ids, o, r, id, a, w.store);
  }

  lemma {:induction false} QuietAgentEvents(w: World, policy: Policy, ids: seq<string>, o: nat, r: nat, e: Event)
    requires Sharing(w, policy, ids) && Tallied(w, ids, o, r) && Quiet(w, e)
    requires e.Compute? || e.Abort? || e.ClearTables?
    ensures Sharing(Next(w, e), policy, ids) && Tallied(Next(w, e), ids, o, r)
  {
    if e.id in w.agents {
      var a := w.agents[e.id];
      match e
      case Compute(id, payload) =>
        if a.phase.Computing? { QuietAgent(w, policy, ids, o, r, id, AgentCompute(a, payload)); }
      case Abort(id) => QuietAgent(w, policy, ids, o, r, id, a);
      case ClearTables(id) => QuietAgent(w, policy, ids, o, r, id, AgentClear(a));
    }
  }

  /** Beginning on a busy agent, and finishing what is not computed, do nothing. */
  lemma NoStep(w: World, e: Event)
    requires e.Begin? || e.Finish?
    requires e.Begin? && e.id in w.agents ==> !w.agents[e.id].phase.Idle?
    requires e.Finish? && e.id in w.agents ==> !w.agents[e.id].phase.Publishing?
    ensures Next(w, e) == w
  {
    if e.id in w.agents {
      assert w.agents[e.id := w.agents[e.id]] == w.agents;
    }
  }

  lemma {:induction false} NextTallied(w: World, policy: Policy, ids: seq<string>, o: nat, r: nat, e: Event)
    requires policy != Reset && Sharing(w, policy, ids) && Tallied(w, ids, o, r) && Quiet(w, e)
    ensures Sharing(Next(w, e), policy, ids)
    ensures Tallied(Next(w, e), ids, o + (if Overtakes(w, e) then 1 else 0), r + if Republishes(w, e) then 1 else 0)
  {
    if e.Begin? && e.id in w.agents && w.agents[e.id].phase.Idle? {
      BeginTallied(w, policy, ids, o, r, e);
    } else if e.Finish? && e.id in w.agents && w.agents[e.id].phase.Publishing? {
      FinishTallied(w, policy, ids, o, r, e);
    } else if e.Begin? || e.Finish? {
      NoStep(w, e);
    } else if e.ForeignGet? {
      GetValid(w.store, e.key);
      GetKeys(w.store, e.key);
      OrderTallied(w, policy, ids, o, r, Next(w, e).store);
    } else if e.ForeignDelete? {
      assert Next(w, e) == w;
    } else {
      QuietAgentEvents(w, policy, ids, o, r, e);
    }
  }

  ghost predicate SharedStart(start: World, policy: Policy, ids: seq<string>) {
    && Initial(start) && Distinct(ids) && start.agents.Keys == Elements(ids)
    && forall id :: id in start.agents ==> start.agents[id].manager.policy == policy
  }

  lemma StartTallied(start: World, policy: Policy, ids: seq<string>)
    requires SharedStart(start, policy, ids)
    ensures Sharing(start, policy, ids) && Tallied(start, ids, 0, 0)
  {
    forall id | id in start.agents ensures FreshlyStarted(start.agents[id]) && Sharer(start.agents[id], start.store, policy) {}
    assert InFlight(start.agents) == {} && InFlightKeys(start.agents) == {};
    assert KeysOf(start.store.records) == {} && AcquiredKeys(start.agents) == {};
    SumFresh(Recomputes, Managers(start.agents), ids);
  }

  lemma {:induction false} QuietPrefix(start: World, events: seq<Event>)
    requires events != [] && QuietRun(start, events)
    ensures var n := |events| - 1; QuietRun(start, events[..n]) && Quiet(RunWorld(start, events[..n]), events[n])
  {
    var n := |events| - 1;
    assert forall i :: 0 <= i < n ==> events[..n][..i] == events[..i] && events[..n][i] == events[i];
  }

  lemma {:induction false} RunTallied(start: World, policy: Policy, ids: seq<string>, events: seq<Event>)
    requires policy != Reset && SharedStart(start, policy, ids) && QuietRun(start, events)
    ensures Sharing(RunWorld(start, events), policy, ids)
    ensures Tallied(RunWorld(start, events), ids, Overtakings(start, events), Republications(start, events))
  {
    if events == [] {
      StartTallied(start, policy, ids);
    } else {
      var before, last := events[..|events| - 1], events[|events| - 1];
      QuietPrefix(start, events);
      RunTallied(start, policy, ids, before);
      NextTallied(RunWorld(start, before), policy, ids, Overtakings(start, before), Republications(start, before), last);
    }
  }

  /**
   In every undisturbed interleaving, summed recomputes are the distinct acquired keys plus the
   publications of keys already stored; and, counting the acquires still in flight, they are
   the keys acquired or in flight plus the acquires that missed a key in flight elsewhere.
   */
  lemma {:induction false} InterleavedRecomputes(start: World, policy: Policy, ids: seq<string>, events: seq<Event>)
    requires policy != Reset && SharedStart(start, policy, ids) && QuietRun(start, events)
    ensures var end := RunWorld(start, events);
      && SummedRecomputes(end, ids) == |AcquiredKeys(end.agents)| + Republications(start, events)
      && SummedRecomputes(end, ids) + |InFlight(end.agents)| ==
         |AcquiredKeys(end.agents) + InFlightKeys(end.agents)| + Overtakings(start, events)
  {
    RunTallied(start, policy, ids, events);
  }

  ghost predicate OvertakesAt(start: World, events: seq<Event>, i: nat)
    requires i < |events|
  {
    Overtakes(RunWorld(start, events[..i]), events[i])
  }

  /** No acquire of the run missed a key in flight elsewhere. */
  ghost predicate NeverOvertaken(start: World, events: seq<Event>) {
    forall i :: 0 <= i < |events| ==> !OvertakesAt(start, events, i)
  }

  lemma NoOvertakingPrefix(start: World, events: seq<Event>)
    requires events != []
    ensures var n := |events| - 1;
      NeverOvertaken(start, events) <==> NeverOvertaken(start, events[..n]) && !OvertakesAt(start, events, n)
  {
    var n := |events| - 1;
    forall i | 0 <= i < n ensures OvertakesAt(start, events[..n], i) == OvertakesAt(start, events, i) {
      assert events[..n][..i] == events[..i] && events[..n][i] == events[i];
    }
  }

  lemma {:induction false} NoOvertaking(start: World, events: seq<Event>)
    ensures Overtakings(start, events) == 0 <==> NeverOvertaken(start, events)
  {
    if events != [] {
      NoOvertaking(start, events[..|events| - 1]);
      NoOvertakingPrefix(start, events);
    }
  }

  /**
   Once every acquire has completed, summed recomputes are the distinct keys plus one for each
   acquire that missed a key in flight elsewhere; so they are exactly the distinct keys if and
   only if no acquire did.
   */
  lemma {:induction false} ExactUnlessOvertaken(start: World, policy: Policy, ids: seq<string>, events: seq<Event>)
    requires policy != Reset && SharedStart(start, policy, ids) && QuietRun(start, events)
    requires forall id :: id in RunWorld(start, events).agents ==> RunWorld(start, events).agents[id].phase.Idle?
    ensures var end := RunWorld(start, events);
      && SummedRecomputes(end, ids) == |AcquiredKeys(end.agents)| + Overtakings(start, events)
      && (SummedRecomputes(end, ids) == |AcquiredKeys(end.agents)| <==> NeverOvertaken(start, events))
  {
    var end := RunWorld(start, events);
    InterleavedRecomputes(start, policy, ids, events);
    NoOvertaking(start, events);
    AtRest(end.agents);
    assert AcquiredKeys(end.agents) + {} == AcquiredKeys(end.agents);
  }

  lemma AtRest(agents: map<string, Agent>)
    requires forall id :: id in agents ==> agents[id].phase.Idle?
    ensures InFlight(agents) == {} && InFlightKeys(agents) == {}
  {
  }
}
