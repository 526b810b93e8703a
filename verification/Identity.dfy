/**
 Graph and layout identities.  A SHA-256 digest is represented by the canonical value
 that is serialised and hashed, so two digests are equal when the hashed values are.
 */
module Identity {
  import opened Wrappers
  import opened Ordering
  import opened Topology
  import opened TopologyTheorems

  // ---------- complete-graph identity ----------

  datatype GraphDigest = GraphDigest(activeRoles: seq<Role>, edges: seq<Edge>)

  /** Edges are compared as the two-element lists they are serialised as. */
  predicate EdgeLeq(a: Edge, b: Edge) {
    ListLeq([a.source, a.target], [b.source, b.target])
  }

  lemma EdgeOrder()
    ensures TotalOrder(EdgeLeq)
  {
    ListOrder();
    forall a: Edge, b: Edge | EdgeLeq(a, b) && EdgeLeq(b, a) ensures a == b {
      var x, y := [a.source, a.target], [b.source, b.target];
      assert x == y;
      assert x[0] == y[0] && x[1] == y[1];
    }
  }

  function GraphIdentity(activeRoles: seq<Role>, edges: seq<Edge>): GraphDigest {
    GraphDigest(Sort(StrLeq, activeRoles), Sort(EdgeLeq, edges))
  }

  function Digest(g: GraphSpec): GraphDigest {
    GraphIdentity(g.activeRoles, g.edges)
  }

  /** Two graphs share a digest exactly when they list the same roles and the same edges in some order. */
  lemma {:induction false} GraphIdentityCanonical(g: GraphSpec, h: GraphSpec)
    ensures Digest(g) == Digest(h) <==>
      multiset(g.activeRoles) == multiset(h.activeRoles) && multiset(g.edges) == multiset(h.edges)
  {
    StrOrder();
    EdgeOrder();
    SortCanonical(StrLeq, g.activeRoles, h.activeRoles);
    SortCanonical(EdgeLeq, g.edges, h.edges);
  }

  /** A digest lists the roles and the edges sorted, edges by source and then by target. */
  lemma DigestSorted(g: GraphSpec)
    ensures multiset(Digest(g).activeRoles) == multiset(g.activeRoles) && SortedBy(StrLeq, Digest(g).activeRoles)
    ensures multiset(Digest(g).edges) == multiset(g.edges)
    ensures forall i, j :: 0 <= i < j < |Digest(g).edges| ==>
      var a, b := Digest(g).edges[i], Digest(g).edges[j];
      if a.source == b.source then StrLeq(a.target, b.target) else StrLeq(a.source, b.source)
  {
    StrOrder();
    EdgeOrder();
    SortSorts(StrLeq, g.activeRoles);
    SortSorts(EdgeLeq, g.edges);
    var edges := Digest(g).edges;
    forall i, j | 0 <= i < j < |edges|
      ensures if edges[i].source == edges[j].source then StrLeq(edges[i].target, edges[j].target)
              else StrLeq(edges[i].source, edges[j].source)
    {
      EdgeMeaning(edges[i], edges[j]);
    }
  }

  lemma EdgeMeaning(a: Edge, b: Edge)
    requires EdgeLeq(a, b)
    ensures if a.source == b.source then StrLeq(a.target, b.target) else StrLeq(a.source, b.source)
  {
    var x, y := [a.source, a.target], [b.source, b.target];
    assert x[1..] == [a.target] && y[1..] == [b.target];
    assert x[0] == a.source && y[0] == b.source;
    if a.source == b.source {
      assert LexLeq(StrLeq, x[1..], y[1..]);
      LexReflexive(CharLeq, a.target);
    }
  }

  // ---------- layout identity ----------

  datatype LayoutSpec = LayoutSpec(
    model: string,
    templateVersion: string,
    consumerRole: Role,
    predecessorRoles: seq<Role>,
    placeholderSchema: seq<string>,
    tokenStructureVersion: string)

  datatype LayoutDigest = LayoutDigest(canonical: LayoutSpec)

  datatype LayoutIdentity = LayoutIdentity(digest: LayoutDigest, spec: LayoutSpec)

  function FromSpec(spec: LayoutSpec): LayoutIdentity {
    LayoutIdentity(LayoutDigest(spec), spec)
  }

  datatype KeyError = InactiveRoleKey(role: Role)

  function SourcesInto(edges: seq<Edge>, role: Role): (r: seq<Role>)
    ensures forall s :: s in r <==> Edge(s, role) in edges
    ensures Distinct(edges) ==> Distinct(r)
  {
    if edges == [] then []
    else
      assert edges == [edges[0]] + edges[1..];
      assert edges[0] == Edge(edges[0].source, edges[0].target);
      var rest := SourcesInto(edges[1..], role);
      if edges[0].target == role then [edges[0].source] + rest else rest
  }

  function Predecessors(g: GraphSpec, role: Role): Result<seq<Role>, KeyError> {
    if role !in g.activeRoles then Err(InactiveRoleKey(role))
    else Ok(Sort(StrLeq, SourcesInto(g.edges, role)))
  }

  function MessageSchema(predecessors: seq<Role>): seq<string> {
    if predecessors == [] then ["question"]
    else ["message:" + predecessors[0]] + MessageSchema(predecessors[1..])
  }

  function LayoutOf(g: GraphSpec, role: Role, model: string, versions: map<Role, string>): LayoutIdentity
    requires role in g.activeRoles
  {
    var predecessors := Predecessors(g, role).value;
    FromSpec(LayoutSpec(model, if role in versions then versions[role] else "v1", role,
                        predecessors, MessageSchema(predecessors), "v1"))
  }

  /** The layouts of the listed active roles. */
  ghost function LayoutMap(g: GraphSpec, roles: seq<Role>, model: string, versions: map<Role, string>): map<Role, LayoutIdentity> {
    map role | role in roles && role in g.activeRoles :: LayoutOf(g, role, model, versions)
  }

  ghost function LayoutTable(g: GraphSpec, model: string, versions: map<Role, string>): Result<map<Role, LayoutIdentity>, GraphError> {
    match Order(g)
    case Err(error) => Err(error)
    case Ok(order) => Ok(LayoutMap(g, order, model, versions))
  }

  lemma LayoutMapGrows(g: GraphSpec, order: seq<Role>, i: nat, model: string, versions: map<Role, string>)
    requires i < |order| && order[i] in g.activeRoles
    ensures LayoutMap(g, order[..i + 1], model, versions) ==
            LayoutMap(g, order[..i], model, versions)[order[i] := LayoutOf(g, order[i], model, versions)]
  {
  }

  lemma OrderRoles(g: GraphSpec)
    requires Order(g).Ok?
    ensures forall role :: role in Order(g).value <==> role in g.activeRoles
  {
    OrderIsLeast(g);
    forall role ensures role in Order(g).value <==> role in g.activeRoles {
      assert role in Elements(Order(g).value) <==> role in Elements(g.activeRoles);
    }
  }

  /** Fills the result dictionary role by role, in topological order. */
  method LayoutsForGraph(g: GraphSpec, model: string, versions: map<Role, string>)
    returns (r: Result<map<Role, LayoutIdentity>, GraphError>)
    ensures r == LayoutTable(g, model, versions)
  {
    var order := TopologicalOrder(g);
    if order.Err? {
      return Err(order.error);
    }
    OrderRoles(g);
    var result: map<Role, LayoutIdentity> := map[];
    for i := 0 to |order.value|
      invariant result == LayoutMap(g, order.value[..i], model, versions)
    {
      var role := order.value[i];
      var predecessors := Predecessors(g, role).value;
      var version := if role in versions then versions[role] else "v1";
      var spec := LayoutSpec(model, version, role, predecessors, MessageSchema(predecessors), "v1");
      LayoutMapGrows(g, order.value, i, model, versions);
      result := result[role := FromSpec(spec)];
    }
    assert order.value[..|order.value|] == order.value;
    return Ok(result);
  }

  /** Every active role of an accepted graph gets exactly its own layout. */
  lemma LayoutTableCovers(g: GraphSpec, model: string, versions: map<Role, string>)
    requires Order(g).Ok?
    ensures LayoutTable(g, model, versions).value.Keys == Elements(g.activeRoles)
    ensures forall role :: role in g.activeRoles ==>
      LayoutTable(g, model, versions).value[role] == LayoutOf(g, role, model, versions)
  {
    OrderRoles(g);
  }

  // ---------- locality ----------

  ghost function PredecessorSet(g: GraphSpec, role: Role): set<Role> {
    set e | e in g.edges && e.target == role :: e.source
  }

  lemma PredecessorsList(g: GraphSpec, role: Role)
    requires FaultFree(g) && role in g.activeRoles
    ensures var p := Predecessors(g, role).value;
      SortedBy(StrLeq, p) && Distinct(p) && Elements(p) == PredecessorSet(g, role)
  {
    var sources := SourcesInto(g.edges, role);
    StrOrder();
    SortSorts(StrLeq, sources);
    MultisetMembers(Sort(StrLeq, sources), sources);
    forall s ensures s in Elements(sources) <==> s in PredecessorSet(g, role) {
      if s in Elements(sources) {
        assert Edge(s, role) in g.edges && Edge(s, role).source == s;
      }
    }
  }

  lemma {:induction false} SchemaExactly(predecessors: seq<Role>)
    ensures var schema := MessageSchema(predecessors);
      && |schema| == |predecessors| + 1 && schema[|predecessors|] == "question"
      && forall i :: 0 <= i < |predecessors| ==> schema[i] == "message:" + predecessors[i]
  {
    if predecessors != [] {
      SchemaExactly(predecessors[1..]);
      assert MessageSchema(predecessors)[1..] == MessageSchema(predecessors[1..]);
      assert forall i :: 0 < i < |predecessors| ==> predecessors[i] == predecessors[1..][i - 1];
    }
  }

  /**
   What a role's layout holds: the model, the role's template version or "v1", the role, its
   sorted predecessors, one message placeholder for each of them and the question, and "v1"
   as token structure version; and an accepted graph's table holds that layout.
   */
  lemma LayoutContents(g: GraphSpec, role: Role, model: string, versions: map<Role, string>)
    requires FaultFree(g) && role in g.activeRoles
    ensures var layout := LayoutOf(g, role, model, versions);
      var spec := layout.spec;
      && layout.digest == LayoutDigest(spec)
      && spec.model == model && spec.consumerRole == role && spec.tokenStructureVersion == "v1"
      && (role in versions ==> spec.templateVersion == versions[role])
      && (role !in versions ==> spec.templateVersion == "v1")
      && SortedBy(StrLeq, spec.predecessorRoles) && Distinct(spec.predecessorRoles)
      && (forall source :: source in spec.predecessorRoles <==> Edge(source, role) in g.edges)
      && |spec.placeholderSchema| == |spec.predecessorRoles| + 1
      && spec.placeholderSchema[|spec.predecessorRoles|] == "question"
      && (forall i :: 0 <= i < |spec.predecessorRoles| ==>
            spec.placeholderSchema[i] == "message:" + spec.predecessorRoles[i])
    ensures Order(g).Ok? ==>
      var table := LayoutTable(g, model, versions).value;
      role in table && table[role] == LayoutOf(g, role, model, versions)
  {
    var p := Predecessors(g, role).value;
    PredecessorsList(g, role);
    SchemaExactly(p);
    forall source ensures source in p <==> Edge(source, role) in g.edges {
      assert source in p <==> source in Elements(p);
      assert Edge(source, role) in g.edges ==> Edge(source, role).source in PredecessorSet(g, role);
    }
    if Order(g).Ok? {
      LayoutTableCovers(g, model, versions);
      assert role in Elements(g.activeRoles);
    }
  }

  /** Only an active role has predecessors to ask for. */
  lemma InactiveRoleRefused(g: GraphSpec, role: Role)
    ensures Predecessors(g, role) == Err(InactiveRoleKey(role)) <==> role !in g.activeRoles
  {
  }

  /**
   A role's layout is determined by, and determines, the model, the template version and
   the set of direct predecessors: nothing else in the graph matters.
   */
  lemma LayoutLocality(g: GraphSpec, h: GraphSpec, role: Role, model: string, model': string,
                       versions: map<Role, string>, versions': map<Role, string>)
    requires FaultFree(g) && FaultFree(h) && role in g.activeRoles && role in h.activeRoles
    ensures LayoutOf(g, role, model, versions).digest == LayoutOf(h, role, model', versions').digest <==>
      && model == model'
      && (if role in versions then versions[role] else "v1") == (if role in versions' then versions'[role] else "v1")
      && PredecessorSet(g, role) == PredecessorSet(h, role)
  {
    var p, q := Predecessors(g, role).value, Predecessors(h, role).value;
    PredecessorsList(g, role);
    PredecessorsList(h, role);
    if PredecessorSet(g, role) == PredecessorSet(h, role) {
      StrOrder();
      DistinctSameMultiset(p, q);
      SortedUnique(StrLeq, p, q);
    }
  }

  /** Equal complete graphs give every role equal layouts, so the graph key is never the coarser one. */
  lemma {:induction false} GraphKeyDeterminesLayout(g: GraphSpec, h: GraphSpec, role: Role, model: string, versions: map<Role, string>)
    requires FaultFree(g) && FaultFree(h) && Digest(g) == Digest(h) && role in g.activeRoles
    ensures role in h.activeRoles
    ensures LayoutOf(g, role, model, versions) == LayoutOf(h, role, model, versions)
  {
    GraphIdentityCanonical(g, h);
    MultisetMembers(g.activeRoles, h.activeRoles);
    MultisetMembers(g.edges, h.edges);
    LayoutLocality(g, h, role, model, model, versions, versions);
  }
}
