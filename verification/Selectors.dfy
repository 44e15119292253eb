/** From the text of a selector to one pinned node, and from a node to the references that name it. */
module Selectors {
  import opened Ordering
  import opened Wrappers
  import opened GraphModel
  import opened Incidence
  import opened Traversal

  predicate HasPart(text: string, part: string) {
    exists i :: 0 <= i <= |text| && part <= text[i..]
  }

  /** How well a node answers a selector: 0 is best, -1 is no match. */
  function Rank(fold: Fold, n: Node, selector: string): (r: int)
    ensures -1 <= r <= 6
  {
    var folded := fold(selector);
    if n.id == Digest(selector) then 0
    else if n.qualifiedName == selector then 1
    else if n.name == selector then 2
    else if fold(n.qualifiedName) == folded then 3
    else if fold(n.name) == folded then 4
    else if folded <= fold(n.qualifiedName) || folded <= fold(n.name) then 5
    else if HasPart(fold(n.qualifiedName), folded) || HasPart(fold(n.name), folded) then 6
    else -1
  }

  /** The pinned nodes sorted by id. */
  function InOrder(nodes: map<Id, Node>): (r: seq<Node>)
    ensures |r| == |nodes|
  {
    var ids := SortedIds(nodes.Keys);
    seq(|ids|, i requires 0 <= i < |ids| => nodes[ids[i]])
  }

  lemma {:induction false} InOrderIsEverything(nodes: map<Id, Node>)
    ensures forall n :: n in InOrder(nodes) <==> exists id :: id in nodes && nodes[id] == n
  {
    var ids := SortedIds(nodes.Keys);
    forall id | id in nodes ensures nodes[id] in InOrder(nodes) {
      assert id in ids;
      var k :| 0 <= k < |ids| && ids[k] == id;
      assert InOrder(nodes)[k] == nodes[id];
    }
  }

  /** The candidate order: rank, then qualified name, then id. */
  function MatchLe(fold: Fold, selector: string): (Node, Node) -> bool {
    (a: Node, b: Node) =>
      var p, q := Rank(fold, a, selector), Rank(fold, b, selector);
      if p != q then p < q
      else if a.qualifiedName != b.qualifiedName then TextLe(a.qualifiedName, b.qualifiedName)
      else IdLe(a.id, b.id)
  }

  lemma {:induction false} MatchOrder(fold: Fold, selector: string)
    ensures Preorder(MatchLe(fold, selector))
  {
    var le := MatchLe(fold, selector);
    IdOrder();
    forall a, b ensures le(a, b) || le(b, a) {
      TextLeTotal(a.qualifiedName, b.qualifiedName);
    }
    forall a, b, c | le(a, b) && le(b, c) ensures le(a, c) {
      TextLeTotal(a.qualifiedName, b.qualifiedName);
      TextLeTotal(b.qualifiedName, c.qualifiedName);
      if a.qualifiedName != b.qualifiedName && TextLe(a.qualifiedName, b.qualifiedName) && TextLe(b.qualifiedName, c.qualifiedName) {
        TextLeTransitive(a.qualifiedName, b.qualifiedName, c.qualifiedName);
      }
    }
  }

  function Hit(fold: Fold, selector: string): Node -> bool {
    (n: Node) => Rank(fold, n, selector) >= 0
  }

  function Matches(fold: Fold, nodes: map<Id, Node>, selector: string): seq<Node> {
    Sort(MatchLe(fold, selector), Keep(Hit(fold, selector), InOrder(nodes)))
  }

  method Match(scope: GraphSet, fold: Fold, selector: string) returns (candidates: seq<Node>)
    ensures candidates == Matches(fold, scope.nodes, selector)
  {
    var nodes := InOrder(scope.nodes);
    var hit := Hit(fold, selector);
    var ranked: seq<Node> := [];
    for i := 0 to |nodes|
      invariant ranked == Keep(hit, nodes[..i])
    {
      KeepSnoc(hit, nodes, i);
      if hit(nodes[i]) {
        ranked := ranked + [nodes[i]];
      }
    }
    assert nodes[..|nodes|] == nodes;
    candidates := Sort(MatchLe(fold, selector), ranked);
  }

  datatype Resolved = Found(node: Node) | Ambiguous(candidates: seq<Node>) | NotFound | Rejected

  function ResolveOf(fold: Fold, nodes: map<Id, Node>, selector: string): Resolved {
    if selector == "" then Rejected
    else
      var candidates := Matches(fold, nodes, selector);
      if candidates == [] then NotFound
      else
        var best := Rank(fold, candidates[0], selector);
        var tied := Keep((n: Node) => Rank(fold, n, selector) == best, candidates);
        if |tied| == 1 then Found(tied[0]) else Ambiguous(tied)
  }

  method Resolve(scope: GraphSet, fold: Fold, selector: string) returns (r: Resolved)
    ensures r == ResolveOf(fold, scope.nodes, selector)
  {
    if selector == "" { return Rejected; }
    var candidates := Match(scope, fold, selector);
    if candidates == [] { return NotFound; }
    var best := Rank(fold, candidates[0], selector);
    var tied := Keep((n: Node) => Rank(fold, n, selector) == best, candidates);
    if |tied| > 1 { return Ambiguous(tied); }
    assert candidates[0] in tied;
    return Found(tied[0]);
  }

  ghost predicate PinnedNode(nodes: map<Id, Node>, n: Node) {
    exists id :: id in nodes && nodes[id] == n
  }

  /** `n` answers the selector at least as well as every pinned node. */
  ghost predicate BestMatch(fold: Fold, nodes: map<Id, Node>, selector: string, n: Node) {
    && PinnedNode(nodes, n) && Rank(fold, n, selector) >= 0
    && forall id :: id in nodes && Rank(fold, nodes[id], selector) >= 0 ==>
         Rank(fold, n, selector) <= Rank(fold, nodes[id], selector)
  }

  /**
    A selector resolves to the one best match, refuses to pick between several, and finds nothing
    only when no pinned node matches at all.
  */
  lemma {:induction false} ResolveMeaning(fold: Fold, nodes: map<Id, Node>, selector: string)
    requires selector != ""
    requires forall id :: id in nodes ==> nodes[id].id == id
    ensures var r := ResolveOf(fold, nodes, selector);
      match r
      case Found(n) => BestMatch(fold, nodes, selector, n) && forall m :: BestMatch(fold, nodes, selector, m) ==> m == n
      case Ambiguous(tied) => |tied| > 1 && forall m :: m in tied <==> BestMatch(fold, nodes, selector, m)
      case NotFound => forall id :: id in nodes ==> Rank(fold, nodes[id], selector) < 0
      case Rejected => false
  {
    var candidates := Matches(fold, nodes, selector);
    MatchesAreHits(fold, nodes, selector);
    if candidates != [] {
      var best := Rank(fold, candidates[0], selector);
      var tied := Keep((n: Node) => Rank(fold, n, selector) == best, candidates);
      assert candidates[0] in tied;
      forall m ensures m in tied <==> BestMatch(fold, nodes, selector, m) {
        TiedIsBest(fold, nodes, selector, m);
      }
    } else {
      forall id | id in nodes ensures Rank(fold, nodes[id], selector) < 0 {
        assert PinnedNode(nodes, nodes[id]);
      }
    }
  }

  lemma {:induction false} MatchesAreHits(fold: Fold, nodes: map<Id, Node>, selector: string)
    ensures forall n :: n in Matches(fold, nodes, selector) <==> PinnedNode(nodes, n) && Rank(fold, n, selector) >= 0
    ensures forall n :: n in Matches(fold, nodes, selector) ==>
      Rank(fold, Matches(fold, nodes, selector)[0], selector) <= Rank(fold, n, selector)
  {
    var le := MatchLe(fold, selector);
    var raw := Keep(Hit(fold, selector), InOrder(nodes));
    var candidates := Matches(fold, nodes, selector);
    InOrderIsEverything(nodes);
    SameElements(raw, candidates);
    MatchOrder(fold, selector);
    SortSorted(le, raw);
    forall n | n in candidates ensures Rank(fold, candidates[0], selector) <= Rank(fold, n, selector) {
      var k :| 0 <= k < |candidates| && candidates[k] == n;
      if 0 < k { assert le(candidates[0], candidates[k]); }
    }
  }

  lemma {:induction false} TiedIsBest(fold: Fold, nodes: map<Id, Node>, selector: string, m: Node)
    requires Matches(fold, nodes, selector) != []
    ensures (m in Matches(fold, nodes, selector) &&
             Rank(fold, m, selector) == Rank(fold, Matches(fold, nodes, selector)[0], selector))
            <==> BestMatch(fold, nodes, selector, m)
  {
    var candidates := Matches(fold, nodes, selector);
    MatchesAreHits(fold, nodes, selector);
    if BestMatch(fold, nodes, selector, m) {
      assert PinnedNode(nodes, candidates[0]);
    }
    if m in candidates && Rank(fold, m, selector) == Rank(fold, candidates[0], selector) {
      forall id | id in nodes && Rank(fold, nodes[id], selector) >= 0
        ensures Rank(fold, m, selector) <= Rank(fold, nodes[id], selector)
      {
        assert PinnedNode(nodes, nodes[id]);
        assert nodes[id] in candidates;
      }
    }
  }

  // ---------------------------------------------------------------- unresolved references

  /** The scope's edges, one per id, whatever members they come from. */
  function PinnedEdges(scope: GraphSet): seq<Edge> {
    Sort((a: Edge, b: Edge) => IdLe(a.id, b.id),
         FirstById(AllEdges(Sort((g: Graph, h: Graph) => TextLe(g.project, h.project), scope.graphs))))
  }

  lemma {:induction false} PinnedEdgesAreAll(scope: GraphSet)
    requires UniqueEdgeIds(scope.Edges())
    ensures forall e :: e in PinnedEdges(scope) <==> e in scope.Edges()
  {
    var graphs := Sort((g: Graph, h: Graph) => TextLe(g.project, h.project), scope.graphs);
    SameElements(scope.graphs, graphs);
    forall e ensures e in AllEdges(graphs) <==> e in scope.Edges() {
      EdgeHasMember(graphs, e);
      EdgeHasMember(scope.graphs, e);
      if i :| 0 <= i < |graphs| && e in graphs[i].edges { assert graphs[i] in scope.graphs; }
      if i :| 0 <= i < |scope.graphs| && e in scope.graphs[i].edges { assert scope.graphs[i] in graphs; }
    }
    FirstByIdExact(AllEdges(graphs));
    SameElements(FirstById(AllEdges(graphs)), PinnedEdges(scope));
  }

  /** Pinned unresolved edges whose text names `node`. */
  method UnresolvedReferences(scope: GraphSet, fold: Fold, node: Node) returns (found: seq<Edge>)
    ensures forall e :: e in found <==> e in PinnedEdges(scope) && NamesNode(fold, e, node)
  {
    var edges := PinnedEdges(scope);
    found := [];
    for i := 0 to |edges|
      invariant forall e :: e in found <==> e in edges[..i] && NamesNode(fold, e, node)
    {
      var e := edges[i];
      assert edges[..i + 1] == edges[..i] + [e];
      if e.Resolved() { continue; }
      if NamesNode(fold, e, node) {
        found := found + [e];
      }
    }
    assert edges[..|edges|] == edges;
  }

  /** The unresolved edges that name one of the given nodes, found node by node. */
  method ReferencesToAny(scope: GraphSet, fold: Fold, ids: seq<Id>)
    returns (r: Result<set<Edge>, Id>)
    requires UniqueEdgeIds(scope.Edges())
    ensures r.Failure? <==> exists id :: id in ids && id !in scope.nodes
    ensures r.Failure? ==> r.error in ids && r.error !in scope.nodes
    ensures r.Success? ==> forall e :: e in r.value <==>
      e in scope.Edges() && exists id :: id in ids && id in scope.nodes && NamesNode(fold, e, scope.nodes[id])
  {
    var relevant: set<Edge> := {};
    PinnedEdgesAreAll(scope);
    for i := 0 to |ids|
      invariant forall id :: id in ids[..i] ==> id in scope.nodes
      invariant forall e :: e in relevant <==>
        e in scope.Edges() && exists id :: id in ids[..i] && id in scope.nodes && NamesNode(fold, e, scope.nodes[id])
    {
      var id := ids[i];
      if id !in scope.nodes { return Failure(id); }
      var found := UnresolvedReferences(scope, fold, scope.nodes[id]);
      PrefixSnoc(ids, i);
      relevant := relevant + Elements(found);
    }
    assert ids[..|ids|] == ids;
    return Success(relevant);
  }
}
