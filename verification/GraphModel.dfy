/**
  Pinned graph facts: nodes, edges, one project's generation (`Graph`), and several
  generations indexed together (`GraphSet`).

  `fold` stands for `str.casefold` wherever names are compared.
*/
module GraphModel {
  import opened Ordering
  import opened Wrappers

  type Fold = string -> string

  const MAX_DEPTH := 8
  const MAX_NODES := 500
  const MAX_EDGES := 1000
  const DEFAULT_DEPTH := 2
  const DEFAULT_MAX_NODES := 50
  const DEFAULT_MAX_EDGES := 100

  datatype Heading = Incoming | Outgoing | Both

  /** The canonical edge kinds, in the order their names sort. */
  datatype EdgeKind =
    | Calls | CallsEndpoint | Contains | DependsOn | ExecutesProcedure | Exposes | Implements | Imports
    | Inherits | Publishes | Reads | References | Subscribes | Tests | Writes

  function KindPlace(k: EdgeKind): nat {
    match k
    case Calls => 0 case CallsEndpoint => 1 case Contains => 2 case DependsOn => 3
    case ExecutesProcedure => 4 case Exposes => 5 case Implements => 6 case Imports => 7
    case Inherits => 8 case Publishes => 9 case Reads => 10 case References => 11
    case Subscribes => 12 case Tests => 13 case Writes => 14
  }

  datatype Resolution = ExactStatic | InferredStatic | Annotated | Unresolved

  /** An edge carries exactly one of `target_id` and `unresolved_target`. */
  datatype Target = Pinned(id: Id) | Named(text: string)

  datatype Node = Node(id: Id, project: string, name: string, qualifiedName: string)

  datatype Edge = Edge(id: Id, source: Id, kind: EdgeKind, resolution: Resolution, target: Target) {
    predicate Resolved() { target.Pinned? }
    predicate Valid() { resolution.Unresolved? <==> target.Named? }
  }

  /** A bound as `bounded_int` reads it: absent means the default, out of range is refused. */
  function BoundedInt(value: Option<int>, low: int, high: int, default: int): (r: Option<int>)
    requires low <= default <= high
    ensures r.Some? <==> value.None? || low <= value.value <= high
    ensures r.Some? ==> low <= r.value <= high && (value.Some? ==> r == value)
    ensures value.None? ==> r == Some(default)
  {
    match value
    case None => Some(default)
    case Some(v) => if v < low || v > high then None else value
  }

  // ---------------------------------------------------------------- one generation

  datatype Graph = Graph(project: string, nodes: seq<Node>, edges: seq<Edge>, coverage: string)

  datatype GraphError = ForeignNode | DuplicateNode | DuplicateEdge | UnpinnedSource

  predicate Pins(nodes: seq<Node>, id: Id) {
    exists i :: 0 <= i < |nodes| && nodes[i].id == id
  }

  ghost predicate UniqueNodeIds(nodes: seq<Node>) {
    forall i, j :: 0 <= i < j < |nodes| ==> nodes[i].id != nodes[j].id
  }

  ghost predicate UniqueEdgeIds(edges: seq<Edge>) {
    forall a, b :: a in edges && b in edges && a.id == b.id ==> a == b
  }

  ghost predicate RepeatFree(edges: seq<Edge>) {
    forall i, j :: 0 <= i < j < |edges| ==> edges[i].id != edges[j].id
  }

  /** What the constructor of a generation checks. */
  ghost predicate Generation(project: string, nodes: seq<Node>, edges: seq<Edge>) {
    && (forall n :: n in nodes ==> n.project == project)
    && UniqueNodeIds(nodes)
    && RepeatFree(edges)
    && (forall e :: e in edges ==> Pins(nodes, e.source))
  }

  ghost predicate GraphValid(g: Graph) {
    Generation(g.project, g.nodes, g.edges)
  }

  method BuildGraph(project: string, nodes: seq<Node>, edges: seq<Edge>, coverage: string)
    returns (r: Result<Graph, GraphError>)
    ensures r.Success? <==> Generation(project, nodes, edges)
    ensures r.Success? ==> r.value == Graph(project, nodes, edges, coverage)
  {
    var byId: set<Id> := {};
    for i := 0 to |nodes|
      invariant byId == set n | n in nodes[..i] :: n.id
      invariant forall n :: n in nodes[..i] ==> n.project == project
      invariant UniqueNodeIds(nodes[..i])
    {
      if nodes[i].project != project { return Failure(ForeignNode); }
      if nodes[i].id in byId {
        assert !UniqueNodeIds(nodes);
        return Failure(DuplicateNode);
      }
      assert nodes[..i + 1] == nodes[..i] + [nodes[i]];
      byId := byId + {nodes[i].id};
    }
    assert nodes[..|nodes|] == nodes;
    var seenEdges: set<Id> := {};
    for i := 0 to |edges|
      invariant seenEdges == set e | e in edges[..i] :: e.id
      invariant RepeatFree(edges[..i])
      invariant forall e :: e in edges[..i] ==> Pins(nodes, e.source)
    {
      if edges[i].id in seenEdges {
        assert !RepeatFree(edges);
        return Failure(DuplicateEdge);
      }
      if edges[i].source !in byId {
        assert !Pins(nodes, edges[i].source);
        return Failure(UnpinnedSource);
      }
      assert edges[..i + 1] == edges[..i] + [edges[i]];
      seenEdges := seenEdges + {edges[i].id};
    }
    assert edges[..|edges|] == edges;
    return Success(Graph(project, nodes, edges, coverage));
  }

  // ---------------------------------------------------------------- several generations

  function AllEdges(graphs: seq<Graph>): seq<Edge> {
    if graphs == [] then []
    else AllEdges(graphs[..|graphs| - 1]) + graphs[|graphs| - 1].edges
  }

  function AllNodes(graphs: seq<Graph>): seq<Node> {
    if graphs == [] then []
    else AllNodes(graphs[..|graphs| - 1]) + graphs[|graphs| - 1].nodes
  }

  lemma {:induction false} EdgeHasMember(graphs: seq<Graph>, e: Edge)
    ensures e in AllEdges(graphs) <==> exists i :: 0 <= i < |graphs| && e in graphs[i].edges
  {
    if graphs != [] {
      EdgeHasMember(graphs[..|graphs| - 1], e);
      if e in AllEdges(graphs[..|graphs| - 1]) {
        var i :| 0 <= i < |graphs| - 1 && e in graphs[..|graphs| - 1][i].edges;
        assert e in graphs[i].edges;
      }
      if i :| 0 <= i < |graphs| && e in graphs[i].edges {
        if i < |graphs| - 1 { assert e in graphs[..|graphs| - 1][i].edges; }
      }
    }
  }

  lemma {:induction false} NodeHasMember(graphs: seq<Graph>, n: Node)
    ensures n in AllNodes(graphs) <==> exists i :: 0 <= i < |graphs| && n in graphs[i].nodes
  {
    if graphs != [] {
      NodeHasMember(graphs[..|graphs| - 1], n);
      if n in AllNodes(graphs[..|graphs| - 1]) {
        var i :| 0 <= i < |graphs| - 1 && n in graphs[..|graphs| - 1][i].nodes;
        assert n in graphs[i].nodes;
      }
      if i :| 0 <= i < |graphs| && n in graphs[i].nodes {
        if i < |graphs| - 1 { assert n in graphs[..|graphs| - 1][i].nodes; }
      }
    }
  }

  function Members(graphs: seq<Graph>): set<string> {
    set g | g in graphs :: g.project
  }

  type Index = map<Id, seq<Edge>>

  /** `index.get(node_id, ())`. */
  function Lookup(index: Index, n: Id): seq<Edge> {
    if n in index then index[n] else []
  }

  /** The edges an index files under `n`, in the order they were filed. */
  function From(edges: seq<Edge>, n: Id): seq<Edge> {
    Keep((e: Edge) => e.source == n, edges)
  }

  function Into(edges: seq<Edge>, n: Id): seq<Edge> {
    Keep((e: Edge) => e.target == Pinned(n), edges)
  }

  ghost predicate FilesSources(index: Index, edges: seq<Edge>) {
    forall n :: Lookup(index, n) == From(edges, n)
  }

  ghost predicate FilesTargets(index: Index, edges: seq<Edge>) {
    forall n :: Lookup(index, n) == Into(edges, n)
  }

  ghost predicate NamesNodes(index: map<Id, Node>, nodes: seq<Node>) {
    && (forall id :: id in index ==> index[id].id == id && index[id] in nodes)
    && (forall n :: n in nodes ==> n.id in index && index[n.id] == n)
  }

  ghost predicate AllGenerations(graphs: seq<Graph>) {
    forall g :: g in graphs ==> GraphValid(g)
  }

  datatype GraphSet = GraphSet(
    graphs: seq<Graph>, missing: set<string>,
    nodes: map<Id, Node>, outgoing: Index, incoming: Index)
  {
    function Edges(): seq<Edge> { AllEdges(graphs) }

    function Projects(): set<string> { Members(graphs) }

    /** The indexes agree with a filter over every member's facts. */
    ghost predicate Valid() {
      && AllGenerations(graphs)
      && FilesSources(outgoing, Edges())
      && FilesTargets(incoming, Edges())
      && NamesNodes(nodes, AllNodes(graphs))
      && Projects() !! missing
    }
  }

  datatype SetError = PinnedTwice | NodeInTwoProjects | PinnedAndMissing

  ghost predicate OneProjectEach(graphs: seq<Graph>) {
    forall i, j :: 0 <= i < j < |graphs| ==> graphs[i].project != graphs[j].project
  }

  ghost predicate NodesApart(graphs: seq<Graph>) {
    forall m, n :: m in AllNodes(graphs) && n in AllNodes(graphs) && m.id == n.id ==> m.project == n.project
  }

  /** Every source is pinned: the walk backwards along an edge never leaves the scope. */
  lemma {:induction false} SourcesPinned(scope: GraphSet, e: Edge)
    requires scope.Valid() && e in scope.Edges()
    ensures e.source in scope.nodes
  {
    EdgeHasMember(scope.graphs, e);
    var i :| 0 <= i < |scope.graphs| && e in scope.graphs[i].edges;
    var g := scope.graphs[i];
    assert GraphValid(g) && Pins(g.nodes, e.source);
    var k :| 0 <= k < |g.nodes| && g.nodes[k].id == e.source;
    NodeHasMember(scope.graphs, g.nodes[k]);
  }

  lemma {:induction false} FileSource(index: Index, edges: seq<Edge>, e: Edge)
    requires FilesSources(index, edges)
    ensures FilesSources(index[e.source := Lookup(index, e.source) + [e]], edges + [e])
  {
    var filed := index[e.source := Lookup(index, e.source) + [e]];
    forall n ensures Lookup(filed, n) == From(edges + [e], n) {
      KeepConcat((x: Edge) => x.source == n, edges, [e]);
      assert Lookup(index, n) == From(edges, n);
    }
  }

  lemma {:induction false} FileTarget(index: Index, edges: seq<Edge>, e: Edge)
    requires FilesTargets(index, edges)
    ensures e.target.Named? ==> FilesTargets(index, edges + [e])
    ensures e.target.Pinned? ==>
      FilesTargets(index[e.target.id := Lookup(index, e.target.id) + [e]], edges + [e])
  {
    var filed := if e.target.Pinned? then index[e.target.id := Lookup(index, e.target.id) + [e]] else index;
    forall n ensures Lookup(filed, n) == Into(edges + [e], n) {
      IntoOneMore(edges, e, n);
      assert Lookup(index, n) == Into(edges, n);
    }
  }

  lemma {:induction false} IntoOneMore(edges: seq<Edge>, e: Edge, n: Id)
    ensures Into(edges + [e], n) == Into(edges, n) + if e.target == Pinned(n) then [e] else []
  {
    KeepConcat((x: Edge) => x.target == Pinned(n), edges, [e]);
  }

  /** Files one generation's edges behind what the two indexes already hold. */
  method FileEdges(edges: seq<Edge>, outgoing0: Index, incoming0: Index, ghost filed: seq<Edge>)
    returns (outgoing: Index, incoming: Index)
    requires FilesSources(outgoing0, filed) && FilesTargets(incoming0, filed)
    ensures FilesSources(outgoing, filed + edges) && FilesTargets(incoming, filed + edges)
  {
    outgoing, incoming := outgoing0, incoming0;
    assert filed + edges[..0] == filed;
    for i := 0 to |edges|
      invariant FilesSources(outgoing, filed + edges[..i])
      invariant FilesTargets(incoming, filed + edges[..i])
    {
      var e := edges[i];
      assert filed + edges[..i + 1] == (filed + edges[..i]) + [e];
      FileSource(outgoing, filed + edges[..i], e);
      FileTarget(incoming, filed + edges[..i], e);
      outgoing := outgoing[e.source := Lookup(outgoing, e.source) + [e]];
      if e.target.Pinned? {
        incoming := incoming[e.target.id := Lookup(incoming, e.target.id) + [e]];
      }
    }
    assert edges[..|edges|] == edges;
  }

  /** Adds one generation's nodes to the shared index, unless another project pins one of them. */
  method NameNodes(nodes: seq<Node>, index0: map<Id, Node>, ghost named: seq<Node>)
    returns (index: map<Id, Node>, clash: bool)
    requires NamesNodes(index0, named)
    requires UniqueNodeIds(nodes)
    requires forall m, n :: m in named && n in nodes ==> m.project != n.project
    ensures clash <==> exists m, n :: m in named && n in nodes && m.id == n.id
    ensures !clash ==> NamesNodes(index, named + nodes)
  {
    index := index0;
    assert named + nodes[..0] == named;
    for j := 0 to |nodes|
      invariant NamesNodes(index, named + nodes[..j])
      invariant forall m, n :: m in named && n in nodes[..j] ==> m.id != n.id
    {
      var n := nodes[j];
      assert named + nodes[..j + 1] == (named + nodes[..j]) + [n];
      if n.id in index && index[n.id].project != n.project {
        var m := index[n.id];
        assert m in named && n in nodes && m.id == n.id;
        return index, true;
      }
      index := index[n.id := n];
    }
    assert nodes[..|nodes|] == nodes;
    clash := false;
  }

  lemma {:induction false} AppendGraph(graphs: seq<Graph>, i: nat)
    requires i < |graphs|
    ensures AllNodes(graphs[..i + 1]) == AllNodes(graphs[..i]) + graphs[i].nodes
    ensures AllEdges(graphs[..i + 1]) == AllEdges(graphs[..i]) + graphs[i].edges
  {
    assert graphs[..i + 1][..i] == graphs[..i];
  }

  lemma {:induction false} AppendProject(graphs: seq<Graph>, i: nat)
    requires i < |graphs|
    ensures Members(graphs[..i + 1]) == Members(graphs[..i]) + {graphs[i].project}
    ensures graphs[i].project in Members(graphs[..i]) ==> !OneProjectEach(graphs)
    ensures graphs[i].project !in Members(graphs[..i]) && OneProjectEach(graphs[..i]) ==> OneProjectEach(graphs[..i + 1])
  {
    assert graphs[..i + 1] == graphs[..i] + [graphs[i]];
    if graphs[i].project in Members(graphs[..i]) {
      var g :| g in graphs[..i] && g.project == graphs[i].project;
      var k :| 0 <= k < i && graphs[k] == g;
    }
  }

  lemma {:induction false} NamedApart(graphs: seq<Graph>, index: map<Id, Node>)
    requires NamesNodes(index, AllNodes(graphs))
    ensures NodesApart(graphs)
  {
    forall m, n | m in AllNodes(graphs) && n in AllNodes(graphs) && m.id == n.id ensures m.project == n.project {
      assert index[m.id] == m && index[n.id] == n;
    }
  }

  method BuildGraphSet(graphs: seq<Graph>, missing: set<string>)
    returns (r: Result<GraphSet, SetError>)
    requires AllGenerations(graphs)
    ensures r.Success? <==>
      OneProjectEach(graphs) && NodesApart(graphs) && missing !! Members(graphs)
    ensures r.Success? ==> r.value.Valid() && r.value.graphs == graphs && r.value.missing == missing
  {
    var byProject: set<string> := {};
    var nodes: map<Id, Node> := map[];
    var outgoing: Index, incoming: Index := map[], map[];
    for i := 0 to |graphs|
      invariant byProject == Members(graphs[..i])
      invariant OneProjectEach(graphs[..i])
      invariant FilesSources(outgoing, AllEdges(graphs[..i]))
      invariant FilesTargets(incoming, AllEdges(graphs[..i]))
      invariant NamesNodes(nodes, AllNodes(graphs[..i]))
    {
      var g := graphs[i];
      AppendGraph(graphs, i);
      AppendProject(graphs, i);
      if g.project in byProject {
        return Failure(PinnedTwice);
      }
      ProjectsOfNodes(graphs, i);
      assert GraphValid(g);
      var clash;
      nodes, clash := NameNodes(g.nodes, nodes, AllNodes(graphs[..i]));
      if clash {
        PrefixNodes(graphs, i);
        assert !NodesApart(graphs);
        return Failure(NodeInTwoProjects);
      }
      outgoing, incoming := FileEdges(g.edges, outgoing, incoming, AllEdges(graphs[..i]));
      byProject := byProject + {g.project};
    }
    assert graphs[..|graphs|] == graphs;
    NamedApart(graphs, nodes);
    if !(missing !! byProject) { return Failure(PinnedAndMissing); }
    assert OneProjectEach(graphs);
    return Success(GraphSet(graphs, missing, nodes, outgoing, incoming));
  }

  lemma {:induction false} ProjectsOfNodes(graphs: seq<Graph>, i: nat)
    requires i < |graphs| && AllGenerations(graphs)
    requires graphs[i].project !in Members(graphs[..i])
    ensures forall m, n :: m in AllNodes(graphs[..i]) && n in graphs[i].nodes ==> m.project != n.project
  {
    forall m | m in AllNodes(graphs[..i]) ensures m.project != graphs[i].project {
      NodeHasMember(graphs[..i], m);
      var k :| 0 <= k < i && m in graphs[..i][k].nodes;
      assert GraphValid(graphs[k]) && graphs[k] in graphs[..i];
    }
    assert GraphValid(graphs[i]);
  }

  lemma {:induction false} PrefixNodes(graphs: seq<Graph>, i: nat)
    requires i < |graphs|
    ensures forall n :: n in AllNodes(graphs[..i]) || n in graphs[i].nodes ==> n in AllNodes(graphs)
  {
    forall n | n in AllNodes(graphs[..i]) || n in graphs[i].nodes ensures n in AllNodes(graphs) {
      NodeHasMember(graphs, n);
      if n in AllNodes(graphs[..i]) {
        NodeHasMember(graphs[..i], n);
        var k :| 0 <= k < i && n in graphs[..i][k].nodes;
        assert n in graphs[k].nodes;
      }
    }
  }
}
