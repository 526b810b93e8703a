/**
 The GPU benchmark's use of the runtime: beside each manager it keeps the state it last
 computed or restored for each key, reuses that state on a local hit, and raises when a
 loaded state belongs to another layout.
 */
module Benchmark {
  import opened Wrappers
  import opened Json
  import opened Identity
  import opened Store
  import opened Manager
  import opened Runtime
  import opened Interleaving
  import opened Ledger

  /**
   The state an acquire activates, by the layout digest recorded in it, given the states kept so
   far; nothing when a local hit finds no state kept.  `tag` reads the digest back from a
   payload.
   */
  function Active(tag: Bytes -> LayoutDigest, states: map<Key, LayoutDigest>, answer: Answered): Option<LayoutDigest> {
    match answer.result.decision
    case LocalHit => if answer.result.key in states then Some(states[answer.result.key]) else None
    case RemoteHit => Some(tag(answer.result.payload))
    case _ => Some(answer.invocation.layout.digest)
  }

  /** The states kept for one instance after these acquires. */
  function Kept(tag: Bytes -> LayoutDigest, answers: seq<Answered>): map<Key, LayoutDigest> {
    if answers == [] then map[]
    else
      var n := |answers| - 1;
      var states := Kept(tag, answers[..n]);
      match Active(tag, states, answers[n])
      case Some(digest) => states[answers[n].result.key := digest]
      case None => states
  }

  // ---------- a local hit has an earlier acquire ----------

  ghost predicate AnsweredBefore(answers: seq<Answered>, n: nat, key: Key)
    requires n <= |answers|
  {
    exists j :: 0 <= j < n && answers[j].result.key == key
  }

  /** Local tables and local hits are backed by earlier acquires of the same manager. */
  ghost predicate Backed(a: Agent) {
    && (forall k :: k in a.manager.local ==> AnsweredBefore(a.answers, |a.answers|, k))
    && (forall i :: 0 <= i < |a.answers| && a.answers[i].result.decision.LocalHit? ==>
          AnsweredBefore(a.answers, i, a.answers[i].result.key))
  }

  lemma BackedGrows(a: Agent, a': Agent, last: Answered)
    requires Backed(a) && a'.answers == a.answers + [last]
    requires a'.manager.local.Keys <= a.manager.local.Keys + {last.result.key}
    requires last.result.decision.LocalHit? ==> last.result.key in a.manager.local
    ensures Backed(a')
  {
    var n := |a.answers|;
    forall k | k in a'.manager.local ensures AnsweredBefore(a'.answers, n + 1, k) {
      if k == last.result.key {
        assert a'.answers[n] == last;
      } else {
        var j :| 0 <= j < n && a.answers[j].result.key == k;
        assert a'.answers[j] == a.answers[j];
      }
    }
    forall i | 0 <= i < n + 1 && a'.answers[i].result.decision.LocalHit?
      ensures AnsweredBefore(a'.answers, i, a'.answers[i].result.key)
    {
      var key := a'.answers[i].result.key;
      var j :| 0 <= j < i && a.answers[j].result.key == key;
      assert a'.answers[j] == a.answers[j];
    }
  }

  lemma RememberedKeys(m: ManagerState, record: StateRecord)
    ensures Remember(m, record).local.Keys <= m.local.Keys + {record.key}
  {
  }

  lemma ConsultBacking(m: ManagerState, s: StoreState, key: Key, admission: Option<Admission>, estimate: Option<int>)
    ensures var (m', s', answer) := Consult(m, Some(s), key, admission, estimate);
      && (answer.Miss? ==> m'.local == m.local)
      && (answer.Hit? ==> answer.result.key == key && m'.local.Keys <= m.local.Keys + {key})
      && (answer.Hit? && answer.result.decision.LocalHit? ==> key in m.local)
  {
    if Lookup(s.records, key).Some? {
      RememberedKeys(m, Lookup(s.records, key).value);
    }
  }

  lemma BeginBacked(a: Agent, s: StoreState, invocation: InvocationPlan, admission: Option<Admission>, estimate: Option<int>)
    requires Backed(a)
    ensures Backed(AgentBegin(a, s, invocation, admission, estimate).0)
  {
    if a.phase.Idle? && a.manager.policy != Reset {
      var key := KeyOf(a.manager.policy, invocation);
      BeginStep(a, s, invocation, admission, estimate);
      ConsultBacking(a.manager, s, key, admission, estimate);
      var (m, s', answer) := Consult(a.manager, Some(s), key, admission, estimate);
      if answer.Hit? {
        BackedGrows(a, AgentBegin(a, s, invocation, admission, estimate).0, Answered(invocation, answer.result));
      }
    }
  }

  lemma FinishBacked(a: Agent, s: StoreState, metadata: Option<JsonObject>, now: int)
    requires Backed(a)
    ensures Backed(AgentFinish(a, s, metadata, now).0)
  {
    if a.phase.Publishing? {
      var key, a' := KeyOf(a.manager.policy, a.phase.invocation), AgentFinish(a, s, metadata, now).0;
      if a.manager.policy == Reset {
        BackedGrows(a, a', Answered(a.phase.invocation, AcquireReset(a.manager, key, a.phase.payload).1));
      } else {
        PublishStep(a, s, metadata, now);
        RememberedKeys(a.manager, StateRecord(key, VersionOf(s, key) + 1, a.phase.payload, OrEmpty(metadata), now));
        var outcome := Settle(a.manager, Some(s), key, a.phase.rejected, a.phase.payload, metadata, now).2;
        if outcome.Ok? {
          BackedGrows(a, a', Answered(a.phase.invocation, outcome.value));
        }
      }
    }
  }

  lemma AgentNextBacked(a: Agent, s: StoreState, e: Event)
    requires Backed(a)
    ensures Backed(AgentNext(a, s, e))
  {
    match e
    case Begin(_, invocation, admission, estimate) => BeginBacked(a, s, invocation, admission, estimate);
    case Finish(_, metadata, now) => FinishBacked(a, s, metadata, now);
    case _ =>
  }

  lemma {:induction false} EveryAgentBacked(start: World, events: seq<Event>, id: string)
    requires Initial(start) && id in start.agents
    ensures id in RunWorld(start, events).agents && Backed(RunWorld(start, events).agents[id])
  {
    if events == [] {
      assert FreshlyStarted(start.agents[id]);
    } else {
      EveryAgentBacked(start, events[..|events| - 1], id);
      var w, e := RunWorld(start, events[..|events| - 1]), events[|events| - 1];
      NextIsLocal(w, e, id);
      AgentNextBacked(w.agents[id], w.store, e);
    }
  }

  // ---------- the check never fires ----------

  /** Every acquire so far activated, and kept, a state of the layout it asked for. */
  ghost predicate RightStates(tag: Bytes -> LayoutDigest, answers: seq<Answered>, n: nat)
    requires n <= |answers|
  {
    forall j :: 0 <= j < n ==>
      && answers[j].result.key in Kept(tag, answers[..n])
      && Kept(tag, answers[..n])[answers[j].result.key] == answers[j].invocation.layout.digest
  }

  /** Answers with one key asked for one layout, and remote hits returned a payload of it. */
  ghost predicate Coherent(tag: Bytes -> LayoutDigest, answers: seq<Answered>) {
    && (forall i, j :: 0 <= i < |answers| && 0 <= j < |answers| && answers[i].result.key == answers[j].result.key ==>
          answers[i].invocation.layout == answers[j].invocation.layout)
    && (forall i :: 0 <= i < |answers| ==> tag(answers[i].result.payload) == answers[i].invocation.layout.digest)
    && (forall i :: 0 <= i < |answers| && answers[i].result.decision.LocalHit? ==>
          AnsweredBefore(answers, i, answers[i].result.key))
  }

  lemma {:induction false} StatesAreRight(tag: Bytes -> LayoutDigest, answers: seq<Answered>, n: nat)
    requires n <= |answers| && Coherent(tag, answers)
    ensures RightStates(tag, answers, n)
    ensures n < |answers| ==> Active(tag, Kept(tag, answers[..n]), answers[n]) == Some(answers[n].invocation.layout.digest)
  {
    if n > 0 {
      StatesAreRight(tag, answers, n - 1);
      assert answers[..n][..n - 1] == answers[..n - 1];
      assert Kept(tag, answers[..n]) == Kept(tag, answers[..n - 1])[answers[n - 1].result.key := answers[n - 1].invocation.layout.digest];
    }
  }

  /** An answer's key is that of its invocation, so equal keys mean equal layouts. */
  lemma {:induction false} SameKeySameLayout(computations: set<Computation>, policy: Policy, model: string, a: Answered, b: Answered)
    requires policy != Reset && AnswerProduced(computations, policy, a) && AnswerProduced(computations, policy, b)
    requires Planned(a.invocation, model) && Planned(b.invocation, model) && a.result.key == b.result.key
    ensures a.invocation.layout == b.invocation.layout
  {
    KeyDeterminesLayout(policy, policy, a.invocation, b.invocation, model);
  }

  lemma {:induction false} AnswersCoherent(start: World, events: seq<Event>, model: string, tag: Bytes -> LayoutDigest, id: string)
    requires Initial(start) && Tagged(RunWorld(start, events).computations, model, tag) && id in start.agents
    requires id in RunWorld(start, events).agents && RunWorld(start, events).agents[id].manager.policy != Reset
    requires forall answer :: answer in RunWorld(start, events).agents[id].answers ==> Planned(answer.invocation, model)
    ensures Coherent(tag, RunWorld(start, events).agents[id].answers)
  {
    var w := RunWorld(start, events);
    var a := w.agents[id];
    EveryAnswerWasComputed(start, events);
    EveryAgentBacked(start, events, id);
    forall i, j | 0 <= i < |a.answers| && 0 <= j < |a.answers| && a.answers[i].result.key == a.answers[j].result.key
      ensures a.answers[i].invocation.layout == a.answers[j].invocation.layout
    {
      SameKeySameLayout(w.computations, a.manager.policy, model, a.answers[i], a.answers[j]);
    }
    forall i | 0 <= i < |a.answers| ensures tag(a.answers[i].result.payload) == a.answers[i].invocation.layout.digest {
      PayloadsCarryLayouts(start, events, model, tag, id, a.answers[i]);
    }
  }

  /**
   In every interleaving of any number of managers over one store, under any policy, each
   acquire of an instance finds a state to activate and it is of the layout asked for: the
   benchmark's "wrong layout" check never fires, and its table lookup never fails.
   */
  lemma {:induction false} NoWrongLayout(start: World, events: seq<Event>, model: string, tag: Bytes -> LayoutDigest, id: string, n: nat)
    requires Initial(start) && Tagged(RunWorld(start, events).computations, model, tag) && id in start.agents
    requires id in RunWorld(start, events).agents && n < |RunWorld(start, events).agents[id].answers|
    requires forall answer :: answer in RunWorld(start, events).agents[id].answers ==> Planned(answer.invocation, model)
    ensures var answers := RunWorld(start, events).agents[id].answers;
      Active(tag, Kept(tag, answers[..n]), answers[n]) == Some(answers[n].invocation.layout.digest)
  {
    var w := RunWorld(start, events);
    var a := w.agents[id];
    if a.manager.policy == Reset {
      EveryAnswerWasComputed(start, events);
      assert AnswerProduced(w.computations, a.manager.policy, a.answers[n]);
    } else {
      AnswersCoherent(start, events, model, tag, id);
      StatesAreRight(tag, a.answers, n);
    }
  }
}
