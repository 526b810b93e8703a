/**
 Request-specific agent graphs: validation, and the deterministic topological order.

 `TopologicalOrder` keeps the three dictionaries, the edge set and the ready list of
 the original and is proved equal to `Order`, which only mentions the set of roles and
 the set of edges.  The theorems about the order are in TopologyTheorems.
 */
module Topology {
  import opened Wrappers
  import opened Ordering

  type Role = string

  datatype Edge = Edge(source: Role, target: Role)

  datatype GraphSpec = GraphSpec(activeRoles: seq<Role>, edges: seq<Edge>)

  datatype GraphError =
    | DuplicateRoles
    | InactiveRole(edge: Edge)
    | SelfEdge
    | DuplicateEdge(edge: Edge)
    | Cyclic

  // ---------- specification ----------

  function EdgeFault(roles: set<Role>, seen: set<Edge>, e: Edge): Option<GraphError> {
    if e.source !in roles || e.target !in roles then Some(InactiveRole(e))
    else if e.source == e.target then Some(SelfEdge)
    else if e in seen then Some(DuplicateEdge(e))
    else None
  }

  /** The fault of the first faulty edge at or after position i. */
  function FirstFault(roles: set<Role>, edges: seq<Edge>, i: nat): Option<GraphError>
    requires i <= |edges|
    decreases |edges| - i
  {
    if i == |edges| then None
    else match EdgeFault(roles, Elements(edges[..i]), edges[i])
      case Some(fault) => Some(fault)
      case None => FirstFault(roles, edges, i + 1)
  }

  /** The edges into a role whose source has not been scheduled yet. */
  ghost function Incoming(remaining: set<Role>, edges: set<Edge>, role: Role): set<Edge> {
    set e | e in edges && e.target == role && e.source in remaining
  }

  ghost function Ready(remaining: set<Role>, edges: set<Edge>): set<Role> {
    set r | r in remaining && Incoming(remaining, edges, r) == {}
  }

  ghost predicate IsLeast(least: Role, s: set<Role>) {
    least in s && forall x :: x in s ==> StrLeq(least, x)
  }

  lemma {:induction false} LeastExists(s: set<Role>)
    requires s != {}
    ensures exists least :: IsLeast(least, s)
  {
    StrOrder();
    var x :| x in s;
    if s == {x} {
      assert IsLeast(x, s);
    } else {
      LeastExists(s - {x});
      var y :| IsLeast(y, s - {x});
      assert IsLeast(if StrLeq(x, y) then x else y, s);
    }
  }

  ghost function Least(s: set<Role>): (least: Role)
    requires s != {}
    ensures IsLeast(least, s)
  {
    LeastExists(s);
    var least :| IsLeast(least, s);
    least
  }

  /** Repeatedly schedule the least role none of whose predecessors is still waiting. */
  ghost function Kahn(remaining: set<Role>, edges: set<Edge>): seq<Role> {
    var ready := Ready(remaining, edges);
    if ready == {} then []
    else
      var role := Least(ready);
      [role] + Kahn(remaining - {role}, edges)
  }

  ghost function Order(g: GraphSpec): Result<seq<Role>, GraphError> {
    var roles := Elements(g.activeRoles);
    if !Distinct(g.activeRoles) then Err(DuplicateRoles)
    else match FirstFault(roles, g.edges, 0)
      case Some(fault) => Err(fault)
      case None =>
        var order := Kahn(roles, Elements(g.edges));
        if |order| == |roles| then Ok(order) else Err(Cyclic)
  }

  // ---------- the algorithm ----------

  function ZeroDegree(roles: seq<Role>, indegree: map<Role, int>): (r: seq<Role>)
    requires forall x :: x in roles ==> x in indegree
    ensures forall x :: x in r <==> x in roles && indegree[x] == 0
    ensures Distinct(roles) ==> Distinct(r)
  {
    if roles == [] then []
    else
      var rest := ZeroDegree(roles[1..], indegree);
      if indegree[roles[0]] == 0 then [roles[0]] + rest else rest
  }

  ghost predicate ValidEdges(roles: set<Role>, seen: set<Edge>) {
    forall e :: e in seen ==> e.source in roles && e.target in roles && e.source != e.target
  }

  /** `successors` lists, for every role, the targets of the edges read so far, each once. */
  ghost predicate SuccessorTable(roles: set<Role>, seen: set<Edge>, successors: map<Role, seq<Role>>) {
    && successors.Keys == roles
    && (forall s :: s in roles ==> Distinct(successors[s]))
    && (forall s, t :: s in roles ==> (t in successors[s] <==> Edge(s, t) in seen))
  }

  /** `indegree` counts the edges read so far into every role of `waiting` from `remaining`. */
  ghost predicate DegreeTable(waiting: set<Role>, remaining: set<Role>, seen: set<Edge>, indegree: map<Role, int>) {
    && waiting <= indegree.Keys
    && forall t :: t in waiting ==> indegree[t] == |Incoming(remaining, seen, t)|
  }

  method TopologicalOrder(g: GraphSpec) returns (r: Result<seq<Role>, GraphError>)
    ensures r == Order(g)
  {
    var roles := Elements(g.activeRoles);
    DistinctSize(g.activeRoles);
    if |roles| != |g.activeRoles| {
      return Err(DuplicateRoles);
    }
    var fault, successors, indegree := ReadEdges(roles, g.edges);
    if fault.Some? {
      return Err(fault.value);
    }
    ReadTables(roles, g.edges);
    var order := Drain(g.activeRoles, Elements(g.edges), successors, indegree);
    if |order| != |roles| {
      return Err(Cyclic);
    }
    return Ok(order);
  }

  /** The targets of the edges leaving a role, in the order they are listed. */
  function TargetsOf(edges: seq<Edge>, source: Role): seq<Role> {
    if edges == [] then []
    else
      var last := edges[|edges| - 1];
      var before := TargetsOf(edges[..|edges| - 1], source);
      if last.source == source then before + [last.target] else before
  }

  function CountInto(edges: seq<Edge>, target: Role): nat {
    if edges == [] then 0
    else
      var last := edges[|edges| - 1];
      CountInto(edges[..|edges| - 1], target) + if last.target == target then 1 else 0
  }

  function SuccessorsRead(roles: set<Role>, edges: seq<Edge>): map<Role, seq<Role>> {
    map role | role in roles :: TargetsOf(edges, role)
  }

  function IndegreeRead(roles: set<Role>, edges: seq<Edge>): map<Role, int> {
    map role | role in roles :: CountInto(edges, role)
  }

  lemma ReadOne(roles: set<Role>, edges: seq<Edge>, i: nat)
    requires i < |edges| && edges[i].source in roles && edges[i].target in roles
    ensures Elements(edges[..i + 1]) == Elements(edges[..i]) + {edges[i]}
    ensures var before, s := SuccessorsRead(roles, edges[..i]), edges[i].source;
      s in before && SuccessorsRead(roles, edges[..i + 1]) == before[s := before[s] + [edges[i].target]]
    ensures var before, t := IndegreeRead(roles, edges[..i]), edges[i].target;
      t in before && IndegreeRead(roles, edges[..i + 1]) == before[t := before[t] + 1]
  {
    ElementsGrow(edges, i);
    assert edges[..i + 1][..i] == edges[..i];
  }

  /** The validation loop: reject the first faulty edge, or build the two tables. */
  method ReadEdges(roles: set<Role>, edges: seq<Edge>)
    returns (fault: Option<GraphError>, successors: map<Role, seq<Role>>, indegree: map<Role, int>)
    ensures fault == FirstFault(roles, edges, 0)
    ensures fault == None ==> successors == SuccessorsRead(roles, edges) && indegree == IndegreeRead(roles, edges)
  {
    indegree := map role | role in roles :: 0;
    successors := map role | role in roles :: [];
    var seenEdges: set<Edge> := {};
    for i := 0 to |edges|
      invariant seenEdges == Elements(edges[..i])
      invariant FirstFault(roles, edges, 0) == FirstFault(roles, edges, i)
      invariant successors == SuccessorsRead(roles, edges[..i])
      invariant indegree == IndegreeRead(roles, edges[..i])
    {
      var edge := edges[i];
      var source, target := edge.source, edge.target;
      if source !in roles || target !in roles {
        return Some(InactiveRole(edge)), successors, indegree;
      }
      if source == target {
        return Some(SelfEdge), successors, indegree;
      }
      if edge in seenEdges {
        return Some(DuplicateEdge(edge)), successors, indegree;
      }
      ReadOne(roles, edges, i);
      seenEdges := seenEdges + {edge};
      successors := successors[source := successors[source] + [target]];
      indegree := indegree[target := indegree[target] + 1];
    }
    assert edges[..|edges|] == edges;
    fault := None;
  }

  /** No edge is faulty exactly when every edge joins two different active roles and none is repeated. */
  lemma {:induction false} FaultlessEdges(roles: set<Role>, edges: seq<Edge>, i: nat)
    requires i <= |edges|
    ensures FirstFault(roles, edges, i) == None <==>
      && (forall j :: i <= j < |edges| ==> EdgeFault(roles, {}, edges[j]) == None)
      && (forall j, k :: 0 <= j < k < |edges| && i <= k ==> edges[j] != edges[k])
    decreases |edges| - i
  {
    if i < |edges| {
      FaultlessEdges(roles, edges, i + 1);
      assert edges[i] in Elements(edges[..i]) <==> exists j :: 0 <= j < i && edges[j] == edges[i];
    }
  }

  lemma ElementsGrow<T>(s: seq<T>, i: nat)
    requires i < |s|
    ensures Elements(s[..i + 1]) == Elements(s[..i]) + {s[i]}
  {
  }

  lemma {:induction false} TargetsTable(edges: seq<Edge>, source: Role)
    requires Distinct(edges)
    ensures Distinct(TargetsOf(edges, source))
    ensures forall t :: t in TargetsOf(edges, source) <==> Edge(source, t) in edges
  {
    if edges != [] {
      var n := |edges| - 1;
      TargetsTable(edges[..n], source);
      assert edges == edges[..n] + [edges[n]];
      assert edges[n] == Edge(edges[n].source, edges[n].target);
      assert edges[n] !in edges[..n];
    }
  }

  lemma IncomingGrows(roles: set<Role>, seen: set<Edge>, e: Edge, target: Role)
    requires e.source in roles && e !in seen
    ensures |Incoming(roles, seen + {e}, target)| == |Incoming(roles, seen, target)| + if e.target == target then 1 else 0
  {
    if e.target == target {
      assert Incoming(roles, seen + {e}, target) == Incoming(roles, seen, target) + {e};
    } else {
      assert Incoming(roles, seen + {e}, target) == Incoming(roles, seen, target);
    }
  }

  lemma {:induction false} CountTable(roles: set<Role>, edges: seq<Edge>, target: Role)
    requires Distinct(edges) && forall e :: e in edges ==> e.source in roles
    ensures CountInto(edges, target) == |Incoming(roles, Elements(edges), target)|
  {
    if edges == [] {
      assert Incoming(roles, Elements(edges), target) == {};
    } else {
      var n := |edges| - 1;
      assert edges[..n + 1] == edges;
      assert edges[n] !in Elements(edges[..n]);
      CountTable(roles, edges[..n], target);
      ElementsGrow(edges, n);
      IncomingGrows(roles, Elements(edges[..n]), edges[n], target);
    }
  }

  lemma ReadTables(roles: set<Role>, edges: seq<Edge>)
    requires FirstFault(roles, edges, 0) == None
    ensures ValidEdges(roles, Elements(edges))
    ensures SuccessorTable(roles, Elements(edges), SuccessorsRead(roles, edges))
    ensures DegreeTable(roles, roles, Elements(edges), IndegreeRead(roles, edges))
  {
    FaultlessEdges(roles, edges, 0);
    forall e | e in edges ensures EdgeFault(roles, {}, e) == None {
      var j :| 0 <= j < |edges| && edges[j] == e;
    }
    forall role | role in roles
      ensures Distinct(TargetsOf(edges, role))
      ensures forall t :: t in TargetsOf(edges, role) <==> Edge(role, t) in Elements(edges)
      ensures CountInto(edges, role) == |Incoming(roles, Elements(edges), role)|
    {
      TargetsTable(edges, role);
      CountTable(roles, edges, role);
    }
  }

  /** The ready list holds, sorted and once each, the ready roles outside `pending`. */
  ghost predicate ReadyList(ready: seq<Role>, remaining: set<Role>, edges: set<Edge>, pending: set<Role>) {
    && SortedBy(StrLeq, ready) && Distinct(ready)
    && Elements(ready) == Ready(remaining, edges) - pending
  }

  /** A scheduled role has only scheduled predecessors. */
  ghost predicate Settled(remaining: set<Role>, edges: set<Edge>) {
    forall e :: e in edges && e.target !in remaining ==> e.source !in remaining
  }

  /** The scheduling loop: pop the least ready role, then lower the counts of its successors. */
  method Drain(active: seq<Role>, ghost edges: set<Edge>, successors: map<Role, seq<Role>>, indegree0: map<Role, int>)
    returns (order: seq<Role>)
    requires Distinct(active) && ValidEdges(Elements(active), edges)
    requires SuccessorTable(Elements(active), edges, successors)
    requires indegree0.Keys == Elements(active) && DegreeTable(Elements(active), Elements(active), edges, indegree0)
    ensures order == Kahn(Elements(active), edges)
  {
    ghost var roles := Elements(active);
    var indegree := indegree0;
    order := [];
    ghost var remaining := roles;
    var ready := Sort(StrLeq, ZeroDegree(active, indegree));
    InitialReady(active, edges, indegree);
    while ready != []
      invariant remaining <= roles
      invariant Settled(remaining, edges)
      invariant order + Kahn(remaining, edges) == Kahn(roles, edges)
      invariant indegree.Keys == roles && DegreeTable(remaining, remaining, edges, indegree)
      invariant ReadyList(ready, remaining, edges, {})
      decreases remaining
    {
      var role := ready[0];
      PopLeast(order, ready, remaining, edges);
      PopReady(ready, roles, remaining, edges, successors);
      ready := ready[1..];
      order := order + [role];
      remaining := remaining - {role};
      indegree, ready := LowerCounts(role, roles, remaining, edges, successors, indegree, ready);
    }
    assert Ready(remaining, edges) == {} by { assert Elements(ready) == {}; }
  }

  /** The inner loop: every successor of the scheduled role loses one waiting predecessor. */
  method LowerCounts(role: Role, ghost roles: set<Role>, ghost remaining: set<Role>, ghost edges: set<Edge>,
                     successors: map<Role, seq<Role>>, indegree0: map<Role, int>, ready0: seq<Role>)
    returns (indegree: map<Role, int>, ready: seq<Role>)
    requires ValidEdges(roles, edges) && SuccessorTable(roles, edges, successors)
    requires role in roles && role !in remaining && remaining <= roles
    requires indegree0.Keys == roles && DegreeTable(remaining, remaining + {role}, edges, indegree0)
    requires ReadyList(ready0, remaining, edges, Elements(successors[role]))
    requires forall t :: t in successors[role] ==> t in remaining
    ensures indegree.Keys == roles && DegreeTable(remaining, remaining, edges, indegree)
    ensures ReadyList(ready, remaining, edges, {})
  {
    indegree, ready := indegree0, ready0;
    var targets := Sort(StrLeq, successors[role]);
    MultisetMembers(targets, successors[role]);
    PopCounts(remaining, edges, role);
    for j := 0 to |targets|
      invariant indegree.Keys == roles
      invariant forall t :: t in remaining ==>
        indegree[t] == |Incoming(remaining, edges, t)| + if t in targets[j..] then 1 else 0
      invariant ReadyList(ready, remaining, edges, Elements(targets[j..]))
    {
      var target := targets[j];
      SliceHead(targets, j);
      assert target in targets;
      indegree := indegree[target := indegree[target] - 1];
      if indegree[target] == 0 {
        AppendReady(ready, target, remaining, edges, Elements(targets[j + 1..]));
        ready := Sort(StrLeq, ready + [target]);
      } else {
        assert target !in Ready(remaining, edges);
        assert Ready(remaining, edges) - Elements(targets[j..]) == Ready(remaining, edges) - Elements(targets[j + 1..]);
      }
    }
  }

  lemma SliceHead<T>(s: seq<T>, j: nat)
    requires j < |s| && Distinct(s)
    ensures s[j] !in s[j + 1..]
    ensures forall x :: x in s[j..] <==> x == s[j] || x in s[j + 1..]
    ensures Elements(s[j..]) == Elements(s[j + 1..]) + {s[j]}
  {
  }

  lemma {:induction false} InitialReady(active: seq<Role>, edges: set<Edge>, indegree: map<Role, int>)
    requires Distinct(active) && indegree.Keys == Elements(active)
    requires DegreeTable(Elements(active), Elements(active), edges, indegree)
    ensures ReadyList(Sort(StrLeq, ZeroDegree(active, indegree)), Elements(active), edges, {})
  {
    SortedReady(ZeroDegree(active, indegree));
    assert Elements(ZeroDegree(active, indegree)) == Ready(Elements(active), edges);
  }

  lemma AppendReady(ready: seq<Role>, target: Role, remaining: set<Role>, edges: set<Edge>, pending: set<Role>)
    requires ReadyList(ready, remaining, edges, pending + {target})
    requires target in Ready(remaining, edges) && target !in pending
    ensures ReadyList(Sort(StrLeq, ready + [target]), remaining, edges, pending)
  {
    assert target !in Elements(ready);
    SortedReady(ready + [target]);
    assert Elements(ready + [target]) == Elements(ready) + {target};
  }

  lemma SortedReady(s: seq<Role>)
    requires Distinct(s)
    ensures SortedBy(StrLeq, Sort(StrLeq, s)) && Distinct(Sort(StrLeq, s)) && Elements(Sort(StrLeq, s)) == Elements(s)
  {
    StrOrder();
    SortSorts(StrLeq, s);
    MultisetMembers(Sort(StrLeq, s), s);
  }

  lemma PopLeast(order: seq<Role>, ready: seq<Role>, remaining: set<Role>, edges: set<Edge>)
    requires ready != [] && ReadyList(ready, remaining, edges, {}) && Settled(remaining, edges)
    ensures ready[0] in Ready(remaining, edges)
    ensures (order + [ready[0]]) + Kahn(remaining - {ready[0]}, edges) == order + Kahn(remaining, edges)
    ensures Settled(remaining - {ready[0]}, edges)
    ensures (remaining - {ready[0]}) + {ready[0]} == remaining
  {
    StrOrder();
    assert ready[0] in Elements(ready);
    var least := Least(Ready(remaining, edges));
    assert least in Elements(ready);
    SortedHead(StrLeq, ready, least);
    var rest := remaining - {ready[0]};
    forall e | e in edges && e.target !in rest ensures e.source !in rest {
      if e.target == ready[0] {
        assert e !in Incoming(remaining, edges, ready[0]);
      }
    }
  }

  /** Once the least ready role is popped, the others are ready and its successors still await their lowered counts. */
  lemma PopReady(ready: seq<Role>, roles: set<Role>, remaining: set<Role>, edges: set<Edge>, successors: map<Role, seq<Role>>)
    requires ready != [] && ReadyList(ready, remaining, edges, {})
    requires remaining <= roles && ValidEdges(roles, edges) && SuccessorTable(roles, edges, successors)
    requires ready[0] in Ready(remaining, edges)
    requires Settled(remaining, edges)
    ensures ready[0] in roles
    ensures ReadyList(ready[1..], remaining - {ready[0]}, edges, Elements(successors[ready[0]]))
    ensures forall t :: t in successors[ready[0]] ==> t in remaining - {ready[0]}
  {
    var role := ready[0];
    var rest := remaining - {role};
    assert rest + {role} == remaining;
    forall t | t in successors[role] ensures t in rest {
      assert Edge(role, t) in edges;
    }
    assert ready == [role] + ready[1..];
    assert Elements(ready) == Elements(ready[1..]) + {role};
    forall t | t in rest
      ensures t in Ready(remaining, edges) <==> t in Ready(rest, edges) && t !in successors[role]
    {
      PopIncoming(rest, edges, role, t);
    }
    forall t | t in Ready(remaining, edges) && t != role ensures t in Ready(rest, edges) - Elements(successors[role]) {
      assert t in rest;
    }
    assert Elements(ready[1..]) == Ready(rest, edges) - Elements(successors[role]);
  }

  lemma PopIncoming(rest: set<Role>, edges: set<Edge>, role: Role, t: Role)
    requires role !in rest
    ensures Incoming(rest + {role}, edges, t) ==
            Incoming(rest, edges, t) + if Edge(role, t) in edges then {Edge(role, t)} else {}
  {
  }

  /** What scheduling a role does to the counts of the roles still waiting. */
  lemma PopCounts(rest: set<Role>, edges: set<Edge>, role: Role)
    requires role !in rest
    ensures forall t :: t in rest ==>
      |Incoming(rest + {role}, edges, t)| == |Incoming(rest, edges, t)| + if Edge(role, t) in edges then 1 else 0
  {
    forall t | t in rest
      ensures |Incoming(rest + {role}, edges, t)| == |Incoming(rest, edges, t)| + if Edge(role, t) in edges then 1 else 0
    {
      PopIncoming(rest, edges, role, t);
    }
  }
}
