/** What the scheduler's `Order` promises: an exact cycle test and the least topological order. */
module TopologyTheorems {
  import opened Wrappers
  import opened Ordering
  import opened Topology

  /** A listing of exactly `roles`, each once, in which every edge points forward. */
  ghost predicate IsTopological(order: seq<Role>, roles: set<Role>, edges: set<Edge>) {
    && Distinct(order) && Elements(order) == roles
    && Forward(order, edges)
  }

  ghost predicate Forward(order: seq<Role>, edges: set<Edge>) {
    forall i, j :: 0 <= i < |order| && 0 <= j < |order| && Edge(order[i], order[j]) in edges ==> i < j
  }

  ghost predicate IsWalk(edges: set<Edge>, w: seq<Role>) {
    forall i :: 0 <= i < |w| - 1 ==> Edge(w[i], w[i + 1]) in edges
  }

  ghost predicate IsCycle(edges: set<Edge>, c: seq<Role>) {
    |c| >= 2 && c[0] == c[|c| - 1] && IsWalk(edges, c)
  }

  ghost predicate HasCycle(edges: set<Edge>) {
    exists c :: IsCycle(edges, c)
  }

  /** What the validation loop demands before any scheduling happens. */
  ghost predicate FaultFree(g: GraphSpec) {
    && Distinct(g.activeRoles) && Distinct(g.edges)
    && forall e :: e in g.edges ==> e.source in g.activeRoles && e.target in g.activeRoles && e.source != e.target
  }

  // ---------- Kahn's loop ----------

  lemma {:induction false} KahnSound(remaining: set<Role>, edges: set<Edge>)
    ensures Distinct(Kahn(remaining, edges)) && Elements(Kahn(remaining, edges)) <= remaining
    ensures Forward(Kahn(remaining, edges), edges)
    ensures Ready(remaining - Elements(Kahn(remaining, edges)), edges) == {}
  {
    if Ready(remaining, edges) == {} {
      assert remaining - Elements([]) == remaining;
    } else {
      var role := Least(Ready(remaining, edges));
      var rest := Kahn(remaining - {role}, edges);
      KahnSound(remaining - {role}, edges);
      assert role !in Elements(rest);
      ForwardCons(role, rest, remaining, edges);
      assert Elements([role] + rest) == {role} + Elements(rest);
      assert remaining - Elements([role] + rest) == remaining - {role} - Elements(rest);
    }
  }

  lemma ForwardCons(role: Role, rest: seq<Role>, remaining: set<Role>, edges: set<Edge>)
    requires Forward(rest, edges) && role in Ready(remaining, edges) && Elements(rest) <= remaining
    ensures Forward([role] + rest, edges)
  {
    var order := [role] + rest;
    forall source | source in remaining ensures Edge(source, role) !in edges {
      assert Edge(source, role) !in Incoming(remaining, edges, role);
    }
    assert forall i :: 0 <= i < |order| ==> order[i] == role || order[i] in Elements(rest);
    forall i, j | 0 <= i < |order| && 0 <= j < |order| && Edge(order[i], order[j]) in edges ensures i < j {
      if i > 0 && j > 0 {
        assert Edge(rest[i - 1], rest[j - 1]) in edges;
      }
    }
  }

  /** Walking backwards from a stuck role revisits a role: the pigeonhole argument. */
  lemma {:induction false} StuckCycle(stuck: set<Role>, edges: set<Edge>, walk: seq<Role>)
    requires Ready(stuck, edges) == {}
    requires walk != [] && Distinct(walk) && Elements(walk) <= stuck && IsWalk(edges, walk)
    ensures HasCycle(edges)
    decreases |stuck| - |walk|
  {
    DistinctSize(walk);
    SubsetSize(Elements(walk), stuck);
    assert walk[0] in Elements(walk);
    assert walk[0] !in Ready(stuck, edges);
    var e :| e in Incoming(stuck, edges, walk[0]);
    assert e == Edge(e.source, walk[0]);
    var longer := [e.source] + walk;
    assert IsWalk(edges, longer) by {
      forall i | 0 <= i < |longer| - 1 ensures Edge(longer[i], longer[i + 1]) in edges {
        if i > 0 { assert Edge(walk[i - 1], walk[i]) in edges; }
      }
    }
    if e.source in walk {
      var k :| 0 <= k < |walk| && walk[k] == e.source;
      var cycle := longer[..k + 2];
      assert IsCycle(edges, cycle);
    } else {
      assert Elements(longer) == {e.source} + Elements(walk);
      DistinctSize(longer);
      SubsetSize(Elements(longer), stuck);
      StuckCycle(stuck, edges, longer);
    }
  }

  lemma {:induction false} SubsetSize<T>(a: set<T>, b: set<T>)
    requires a <= b
    ensures |a| <= |b|
    ensures |a| == |b| ==> a == b
    ensures a != b ==> b - a != {}
  {
    assert |b| == |a| + |b - a| by { assert b == a + (b - a); }
  }

  /** Along a walk, positions in a topological order strictly increase. */
  lemma {:induction false} WalkForward(order: seq<Role>, roles: set<Role>, edges: set<Edge>, w: seq<Role>) returns (first: nat, last: nat)
    requires IsTopological(order, roles, edges) && IsWalk(edges, w) && |w| >= 2
    requires forall e :: e in edges ==> e.source in roles && e.target in roles
    ensures first < last < |order| && order[first] == w[0] && order[last] == w[|w| - 1]
  {
    var n := |w| - 1;
    assert Edge(w[n - 1], w[n]) in edges;
    assert w[n] in Elements(order) && w[n - 1] in Elements(order);
    last :| 0 <= last < |order| && order[last] == w[n];
    if n == 1 {
      first :| 0 <= first < |order| && order[first] == w[0];
    } else {
      var middle;
      first, middle := WalkForward(order, roles, edges, w[..n]);
    }
  }

  lemma TopologicalAcyclic(order: seq<Role>, roles: set<Role>, edges: set<Edge>)
    requires IsTopological(order, roles, edges)
    requires forall e :: e in edges ==> e.source in roles && e.target in roles
    ensures !HasCycle(edges)
  {
    if c :| IsCycle(edges, c) {
      var first, last := WalkForward(order, roles, edges, c);
      assert false;
    }
  }

  /** The greedy choice is never beaten: the first entry of any other order was ready too. */
  lemma {:induction false} KahnLeast(remaining: set<Role>, edges: set<Edge>, other: seq<Role>)
    requires IsTopological(other, remaining, edges)
    ensures LexLeq(StrLeq, Kahn(remaining, edges), other)
  {
    if Ready(remaining, edges) != {} {
      var role := Least(Ready(remaining, edges));
      assert role in Elements(other);
      var rest := other[1..];
      assert other == [other[0]] + rest;
      assert other[0] in Ready(remaining, edges) by {
        assert other[0] in Elements(other);
        assert forall i :: 0 <= i < |other| ==> Edge(other[i], other[0]) !in edges;
        forall source | source in remaining ensures Edge(source, other[0]) !in edges {
          assert source in Elements(other);
        }
        forall e | e in edges && e.target == other[0] ensures e.source !in remaining {
          assert e == Edge(e.source, other[0]);
        }
      }
      if other[0] == role {
        TopologicalTail(other, remaining, edges);
        KahnLeast(remaining - {role}, edges, rest);
      }
    }
  }

  lemma TopologicalTail(order: seq<Role>, remaining: set<Role>, edges: set<Edge>)
    requires order != [] && IsTopological(order, remaining, edges)
    ensures IsTopological(order[1..], remaining - {order[0]}, edges)
  {
  }

  // ---------- the theorems about `Order` ----------

  lemma FaultFreeExact(g: GraphSpec)
    ensures FaultFree(g) <==> Distinct(g.activeRoles) && FirstFault(Elements(g.activeRoles), g.edges, 0) == None
  {
    var roles := Elements(g.activeRoles);
    FaultlessEdges(roles, g.edges, 0);
    forall e | e in g.edges ensures exists j :: 0 <= j < |g.edges| && g.edges[j] == e {
    }
    forall e: Edge
      ensures EdgeFault(roles, {}, e) == None <==>
              e.source in g.activeRoles && e.target in g.activeRoles && e.source != e.target
    {
    }
    if FaultFree(g) {
      forall j | 0 <= j < |g.edges| ensures EdgeFault(roles, {}, g.edges[j]) == None {
        assert g.edges[j] in g.edges;
      }
    }
  }

  /** The error names the first faulty edge, judged against the edges before it. */
  lemma {:induction false} FirstFaultIsFirst(roles: set<Role>, edges: seq<Edge>, i: nat, fault: GraphError) returns (k: nat)
    requires i <= |edges| && FirstFault(roles, edges, i) == Some(fault)
    ensures i <= k < |edges|
    ensures EdgeFault(roles, Elements(edges[..k]), edges[k]) == Some(fault)
    ensures forall j :: i <= j < k ==> EdgeFault(roles, Elements(edges[..j]), edges[j]) == None
    decreases |edges| - i
  {
    if EdgeFault(roles, Elements(edges[..i]), edges[i]) == None {
      k := FirstFaultIsFirst(roles, edges, i + 1, fault);
    } else {
      k := i;
    }
  }

  /** The edge, with what came before it, passes the validation. */
  ghost predicate Acceptable(g: GraphSpec, k: nat)
    requires k < |g.edges|
  {
    var e := g.edges[k];
    e.source in g.activeRoles && e.target in g.activeRoles && e.source != e.target && e !in g.edges[..k]
  }

  /** Unique roles and faulty edges: the first faulty edge decides the error, and which check it fails first decides which. */
  lemma EdgeErrorExactly(g: GraphSpec) returns (k: nat)
    requires Distinct(g.activeRoles) && !FaultFree(g)
    ensures k < |g.edges| && !Acceptable(g, k) && forall j :: 0 <= j < k ==> Acceptable(g, j)
    ensures var e := g.edges[k];
      Order(g) == Err(if e.source !in g.activeRoles || e.target !in g.activeRoles then InactiveRole(e)
                      else if e.source == e.target then SelfEdge else DuplicateEdge(e))
  {
    var roles := Elements(g.activeRoles);
    CycleTestExact(g);
    FaultFreeExact(g);
    k := FirstFaultIsFirst(roles, g.edges, 0, FirstFault(roles, g.edges, 0).value);
    forall j | 0 <= j < k ensures Acceptable(g, j) {
      assert EdgeFault(roles, Elements(g.edges[..j]), g.edges[j]) == None;
    }
  }

  lemma OrderComplete(g: GraphSpec)
    requires FaultFree(g)
    ensures Order(g).Ok? <==> Elements(Kahn(Elements(g.activeRoles), Elements(g.edges))) == Elements(g.activeRoles)
    ensures Order(g).Ok? ==> Order(g).value == Kahn(Elements(g.activeRoles), Elements(g.edges))
    ensures Order(g).Err? ==> Order(g).error == Cyclic
  {
    var roles, order := Elements(g.activeRoles), Kahn(Elements(g.activeRoles), Elements(g.edges));
    FaultFreeExact(g);
    KahnSound(roles, Elements(g.edges));
    DistinctSize(order);
    SubsetSize(Elements(order), roles);
  }

  lemma AcceptedAcyclic(g: GraphSpec)
    requires FaultFree(g) && Order(g).Ok?
    ensures !HasCycle(Elements(g.edges))
  {
    var roles, edges := Elements(g.activeRoles), Elements(g.edges);
    OrderComplete(g);
    KahnSound(roles, edges);
    TopologicalAcyclic(Kahn(roles, edges), roles, edges);
  }

  /** When some roles are never ready, they contain a cycle. */
  lemma IncompleteCyclic(roles: set<Role>, edges: set<Edge>)
    requires Elements(Kahn(roles, edges)) != roles
    ensures HasCycle(edges)
  {
    KahnSound(roles, edges);
    SubsetSize(Elements(Kahn(roles, edges)), roles);
    var stuck := roles - Elements(Kahn(roles, edges));
    var role :| role in stuck;
    assert Elements([role]) == {role};
    StuckCycle(stuck, edges, [role]);
  }

  /** Among graphs without faulty edges, exactly the cyclic ones are refused. */
  lemma CyclicExactly(g: GraphSpec)
    requires FaultFree(g)
    ensures Order(g) == Err(Cyclic) <==> HasCycle(Elements(g.edges))
    ensures Order(g).Ok? || Order(g) == Err(Cyclic)
  {
    OrderComplete(g);
    if Order(g).Ok? {
      AcceptedAcyclic(g);
    } else {
      IncompleteCyclic(Elements(g.activeRoles), Elements(g.edges));
    }
  }

  /** The rejections are exact: "must be acyclic" is raised if and only if a directed cycle exists. */
  lemma CycleTestExact(g: GraphSpec)
    ensures Order(g) == Err(DuplicateRoles) <==> !Distinct(g.activeRoles)
    ensures Order(g).Ok? || Order(g) == Err(Cyclic) <==> FaultFree(g)
    ensures Order(g) == Err(Cyclic) <==> FaultFree(g) && HasCycle(Elements(g.edges))
  {
    FaultFreeExact(g);
    NoOtherFault(Elements(g.activeRoles), g.edges, 0);
    if FaultFree(g) {
      CyclicExactly(g);
    }
  }

  lemma {:induction false} NoOtherFault(roles: set<Role>, edges: seq<Edge>, i: nat)
    requires i <= |edges|
    ensures FirstFault(roles, edges, i) != Some(Cyclic) && FirstFault(roles, edges, i) != Some(DuplicateRoles)
    decreases |edges| - i
  {
    if i < |edges| { NoOtherFault(roles, edges, i + 1); }
  }

  /** An accepted graph is listed in its lexicographically least topological order. */
  lemma OrderIsLeast(g: GraphSpec)
    requires Order(g).Ok?
    ensures FaultFree(g)
    ensures IsTopological(Order(g).value, Elements(g.activeRoles), Elements(g.edges))
    ensures forall other :: IsTopological(other, Elements(g.activeRoles), Elements(g.edges)) ==>
      LexLeq(StrLeq, Order(g).value, other)
  {
    CycleTestExact(g);
    OrderComplete(g);
    KahnSound(Elements(g.activeRoles), Elements(g.edges));
    forall other | IsTopological(other, Elements(g.activeRoles), Elements(g.edges))
      ensures LexLeq(StrLeq, Order(g).value, other)
    {
      KahnLeast(Elements(g.activeRoles), Elements(g.edges), other);
    }
  }

  /** The least topological order is unique, so the two clauses of OrderIsLeast determine the output. */
  lemma LeastOrderUnique(g: GraphSpec, order: seq<Role>)
    requires Order(g).Ok?
    requires IsTopological(order, Elements(g.activeRoles), Elements(g.edges))
    requires forall other :: IsTopological(other, Elements(g.activeRoles), Elements(g.edges)) ==>
      LexLeq(StrLeq, order, other)
    ensures order == Order(g).value
  {
    OrderIsLeast(g);
    StrOrder();
    LexTotal(StrLeq, order, Order(g).value);
  }

  /** Acceptance and order depend on the sets of roles and edges, not on how they are listed. */
  lemma OrderIgnoresListing(g: GraphSpec, h: GraphSpec)
    requires multiset(g.activeRoles) == multiset(h.activeRoles) && multiset(g.edges) == multiset(h.edges)
    ensures FaultFree(g) <==> FaultFree(h)
    ensures FaultFree(g) ==> Order(g) == Order(h)
  {
    MultisetMembers(g.activeRoles, h.activeRoles);
    MultisetMembers(g.edges, h.edges);
    if FaultFree(g) {
      FaultFreeExact(g);
      FaultFreeExact(h);
    }
  }
}
