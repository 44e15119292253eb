/** Which edges a traversal looks at from one node, and where each of them leads. */
module Incidence {
  import opened Ordering
  import opened Wrappers
  import opened GraphModel

  /** The optional kind and resolution filters; `None` admits everything. */
  datatype Filter = Filter(heading: Heading, kinds: Option<set<EdgeKind>>, resolutions: Option<set<Resolution>>) {
    predicate Admits(e: Edge) {
      && (kinds.None? || e.kind in kinds.value)
      && (resolutions.None? || e.resolution in resolutions.value)
    }
  }

  predicate Touches(e: Edge, n: Id, heading: Heading) {
    || (heading != Incoming && e.source == n)
    || (heading != Outgoing && e.target == Pinned(n))
  }

  /** The node one hop away from `n` along `e`; none for an unresolved edge. */
  function OtherEnd(e: Edge, n: Id, heading: Heading): Option<Id> {
    if e.target.Named? then None
    else match heading
      case Outgoing => if e.source == n then Some(e.target.id) else None
      case Incoming => if e.target.id == n then Some(e.source) else None
      case Both =>
        if e.source == n then Some(e.target.id)
        else if e.target.id == n then Some(e.source)
        else None
  }

  /** The sort key of incident edges: kind, then id. */
  predicate EdgeLe(a: Edge, b: Edge) {
    if a.kind == b.kind then IdLe(a.id, b.id) else KindPlace(a.kind) < KindPlace(b.kind)
  }

  lemma {:induction false} EdgeOrder()
    ensures Preorder(EdgeLe)
  {
    IdOrder();
  }

  lemma {:induction false} NoTies(edges: seq<Edge>)
    requires UniqueEdgeIds(edges)
    ensures TieFree(EdgeLe, edges)
  {
    IdOrder();
  }

  function Select(edges: seq<Edge>, f: Filter): seq<Edge> {
    Keep((e: Edge) => f.Admits(e), edges)
  }

  function Ids(edges: seq<Edge>): set<Id> {
    set e | e in edges :: e.id
  }

  /** `setdefault(edge.id, edge)` over a sequence: the first edge of each id, in order. */
  function FirstById(edges: seq<Edge>): seq<Edge> {
    if edges == [] then []
    else
      var last := edges[|edges| - 1];
      var rest := FirstById(edges[..|edges| - 1]);
      if last.id in Ids(rest) then rest else rest + [last]
  }

  lemma {:induction false} FirstByIdKeeps(edges: seq<Edge>)
    ensures forall e :: e in FirstById(edges) ==> e in edges
    ensures Ids(FirstById(edges)) == Ids(edges)
    ensures RepeatFree(FirstById(edges))
  {
    if edges != [] {
      var front, last := edges[..|edges| - 1], edges[|edges| - 1];
      FirstByIdKeeps(front);
      assert edges == front + [last];
      assert Ids(edges) == Ids(front) + {last.id};
      var rest := FirstById(front);
      if last.id !in Ids(rest) {
        assert Ids(rest + [last]) == Ids(rest) + {last.id};
        assert forall i :: 0 <= i < |rest| ==> rest[i].id in Ids(rest);
      }
    }
  }

  /** Where ids do not clash, merging by id loses nothing but repeats. */
  lemma {:induction false} FirstByIdExact(edges: seq<Edge>)
    requires UniqueEdgeIds(edges)
    ensures forall e :: e in FirstById(edges) <==> e in edges
  {
    FirstByIdKeeps(edges);
    forall e | e in edges ensures e in FirstById(edges) {
      assert e.id in Ids(FirstById(edges));
      var d :| d in FirstById(edges) && d.id == e.id;
    }
  }

  /** The merge by id loses nothing exactly when no two different edges share an id. */
  lemma {:induction false} MergeLossless(edges: seq<Edge>)
    ensures (forall e :: e in edges ==> e in FirstById(edges)) <==> UniqueEdgeIds(edges)
  {
    if UniqueEdgeIds(edges) {
      FirstByIdExact(edges);
    } else {
      var a, b :| a in edges && b in edges && a.id == b.id && a != b;
      var merged := FirstById(edges);
      FirstByIdKeeps(edges);
      assert !(a in merged && b in merged);
    }
  }

  /** The edges a walk examines at `n`, in the order it examines them. */
  function Incident(scope: GraphSet, n: Id, f: Filter): seq<Edge> {
    var outgoing := if f.heading != Incoming then Select(Lookup(scope.outgoing, n), f) else [];
    var incoming := if f.heading != Outgoing then Select(Lookup(scope.incoming, n), f) else [];
    match f.heading
    case Outgoing => Sort(EdgeLe, outgoing)
    case Incoming => Sort(EdgeLe, incoming)
    case Both => Sort(EdgeLe, FirstById(outgoing + incoming))
  }

  /** The edges touching `n`, before merging and sorting: a filter over every edge of the scope. */
  function Touching(edges: seq<Edge>, n: Id, f: Filter): (r: seq<Edge>)
    ensures forall e :: e in r <==> e in edges && f.Admits(e) && Touches(e, n, f.heading)
  {
    match f.heading
    case Outgoing => Select(From(edges, n), f)
    case Incoming => Select(Into(edges, n), f)
    case Both => Select(From(edges, n), f) + Select(Into(edges, n), f)
  }

  lemma {:induction false} IncidentIsTouching(scope: GraphSet, n: Id, f: Filter)
    requires scope.Valid()
    ensures Incident(scope, n, f) ==
      Sort(EdgeLe, if f.heading == Both then FirstById(Touching(scope.Edges(), n, f)) else Touching(scope.Edges(), n, f))
  {
    assert Lookup(scope.outgoing, n) == From(scope.Edges(), n);
    assert Lookup(scope.incoming, n) == Into(scope.Edges(), n);
  }

  /** Nothing is invented: an incident edge is an admitted edge of the scope that touches the node. */
  lemma {:induction false} IncidentSound(scope: GraphSet, n: Id, f: Filter, e: Edge)
    requires scope.Valid() && e in Incident(scope, n, f)
    ensures e in scope.Edges() && f.Admits(e) && Touches(e, n, f.heading)
  {
    IncidentIsTouching(scope, n, f);
    var raw := Touching(scope.Edges(), n, f);
    FirstByIdKeeps(raw);
    SameElements(Incident(scope, n, f), if f.heading == Both then FirstById(raw) else raw);
  }

  /** No edge that touches the node has its id taken by another such edge. */
  ghost predicate IdsApart(scope: GraphSet, n: Id, f: Filter) {
    UniqueEdgeIds(Touching(scope.Edges(), n, f))
  }

  /**
    Under heading `both` the merge by id is lossless exactly when the edges at the node have
    different ids. Ids are checked inside one generation only, so across members this can fail.
  */
  lemma {:induction false} BothHeadingIsComplete(scope: GraphSet, n: Id, f: Filter)
    requires scope.Valid() && f.heading == Both
    ensures (forall e :: e in Touching(scope.Edges(), n, f) ==> e in Incident(scope, n, f)) <==> IdsApart(scope, n, f)
  {
    IncidentIsTouching(scope, n, f);
    var raw := Touching(scope.Edges(), n, f);
    SameElements(Incident(scope, n, f), FirstById(raw));
    MergeLossless(raw);
  }

  /** With ids unique across the scope, `Incident` is exactly the admitted edges touching the node. */
  lemma {:induction false} IncidentExact(scope: GraphSet, n: Id, f: Filter)
    requires scope.Valid() && UniqueEdgeIds(scope.Edges())
    ensures forall e :: e in Incident(scope, n, f) <==>
      e in scope.Edges() && f.Admits(e) && Touches(e, n, f.heading)
  {
    IncidentIsTouching(scope, n, f);
    var raw := Touching(scope.Edges(), n, f);
    assert UniqueEdgeIds(raw);
    FirstByIdExact(raw);
    SameElements(Incident(scope, n, f), if f.heading == Both then FirstById(raw) else raw);
  }

  /** `part` is exactly the admitted edges touching `n`. */
  ghost predicate ServesAt(edges: seq<Edge>, f: Filter, n: Id, part: seq<Edge>) {
    forall e :: e in part <==> e in edges && f.Admits(e) && Touches(e, n, f.heading)
  }

  ghost predicate Serves(scope: GraphSet, edges: seq<Edge>, f: Filter) {
    forall n :: ServesAt(edges, f, n, Incident(scope, n, f))
  }

  lemma {:induction false} ScopeServes(scope: GraphSet, f: Filter)
    requires scope.Valid() && UniqueEdgeIds(scope.Edges())
    ensures Serves(scope, scope.Edges(), f)
  {
    forall n ensures ServesAt(scope.Edges(), f, n, Incident(scope, n, f)) {
      IncidentExact(scope, n, f);
    }
  }

  // ---------------------------------------------------------------- order independence

  lemma {:induction false} RepeatFreeCounts(r: seq<Edge>, e: Edge)
    requires RepeatFree(r)
    ensures multiset(r)[e] == if e in r then 1 else 0
  {
    if r != [] {
      assert r == [r[0]] + r[1..];
      RepeatFreeCounts(r[1..], e);
      assert forall k :: 0 <= k < |r[1..]| ==> r[1..][k] == r[k + 1];
    }
  }

  lemma {:induction false} FirstByIdForgetsOrder(s: seq<Edge>, t: seq<Edge>)
    requires UniqueEdgeIds(s) && multiset(s) == multiset(t)
    ensures multiset(FirstById(s)) == multiset(FirstById(t))
  {
    SameElements(s, t);
    FirstByIdExact(s);
    FirstByIdExact(t);
    FirstByIdKeeps(s);
    FirstByIdKeeps(t);
    forall e ensures multiset(FirstById(s))[e] == multiset(FirstById(t))[e] {
      RepeatFreeCounts(FirstById(s), e);
      RepeatFreeCounts(FirstById(t), e);
    }
  }

  /** The same facts, whatever order the members and their edge tuples came in. */
  ghost predicate SameFacts(a: GraphSet, b: GraphSet) {
    a.nodes == b.nodes && a.missing == b.missing && multiset(a.Edges()) == multiset(b.Edges())
  }

  lemma {:induction false} SelectForgetsOrder(s: seq<Edge>, t: seq<Edge>, f: Filter)
    requires multiset(s) == multiset(t)
    ensures multiset(Select(s, f)) == multiset(Select(t, f))
  {
    KeepForgetsOrder((e: Edge) => f.Admits(e), s, t);
  }

  lemma {:induction false} TouchingForgetsOrder(s: seq<Edge>, t: seq<Edge>, n: Id, f: Filter)
    requires multiset(s) == multiset(t)
    ensures multiset(Touching(s, n, f)) == multiset(Touching(t, n, f))
  {
    KeepForgetsOrder((e: Edge) => e.source == n, s, t);
    KeepForgetsOrder((e: Edge) => e.target == Pinned(n), s, t);
    SelectForgetsOrder(From(s, n), From(t, n), f);
    SelectForgetsOrder(Into(s, n), Into(t, n), f);
  }

  lemma {:induction false} IncidentForgetsOrder(a: GraphSet, b: GraphSet, n: Id, f: Filter)
    requires a.Valid() && b.Valid() && SameFacts(a, b) && UniqueEdgeIds(a.Edges())
    ensures Incident(a, n, f) == Incident(b, n, f)
  {
    var s, t := Touching(a.Edges(), n, f), Touching(b.Edges(), n, f);
    assert multiset(s) == multiset(t) by { TouchingForgetsOrder(a.Edges(), b.Edges(), n, f); }
    assert UniqueEdgeIds(s);
    if f.heading == Both {
      FirstByIdForgetsOrder(s, t);
      FirstByIdExact(s);
      s, t := FirstById(s), FirstById(t);
    }
    EdgeOrder();
    NoTies(s);
    SortForgetsOrder(EdgeLe, s, t);
    IncidentIsTouching(a, n, f);
    IncidentIsTouching(b, n, f);
  }

  // ---------------------------------------------------------------- rearranging members

  /** What a member contributes, with the order of its tuples forgotten. */
  datatype Facts = Facts(nodes: multiset<Node>, edges: multiset<Edge>)

  ghost function Bags(graphs: seq<Graph>): (r: seq<Facts>)
    ensures |r| == |graphs|
    ensures forall i :: 0 <= i < |graphs| ==> r[i] == Facts(multiset(graphs[i].nodes), multiset(graphs[i].edges))
  {
    seq(|graphs|, i requires 0 <= i < |graphs| => Facts(multiset(graphs[i].nodes), multiset(graphs[i].edges)))
  }

  ghost function Plus(a: Facts, b: Facts): Facts {
    Facts(a.nodes + b.nodes, a.edges + b.edges)
  }

  lemma {:induction false} PlusSwaps(a: Facts, b: Facts, c: Facts)
    ensures Plus(Plus(a, b), c) == Plus(Plus(a, c), b)
  {
    assert (a.nodes + b.nodes) + c.nodes == (a.nodes + c.nodes) + b.nodes;
    assert (a.edges + b.edges) + c.edges == (a.edges + c.edges) + b.edges;
  }

  ghost function Union(bags: seq<Facts>): Facts {
    if bags == [] then Facts(multiset{}, multiset{})
    else Plus(Union(bags[..|bags| - 1]), bags[|bags| - 1])
  }

  lemma {:induction false} UnionOfMembers(graphs: seq<Graph>)
    ensures Union(Bags(graphs)) == Facts(multiset(AllNodes(graphs)), multiset(AllEdges(graphs)))
  {
    if graphs != [] {
      UnionOfMembers(graphs[..|graphs| - 1]);
      assert Bags(graphs)[..|graphs| - 1] == Bags(graphs[..|graphs| - 1]);
    }
  }

  function LessOne<T>(s: seq<T>, k: nat): (r: seq<T>)
    requires k < |s|
    ensures |r| == |s| - 1
  {
    s[..k] + s[k + 1..]
  }

  lemma {:induction false} UnionTakesOut(bags: seq<Facts>, k: nat)
    requires k < |bags|
    ensures Union(bags) == Plus(Union(LessOne(bags, k)), bags[k])
  {
    var n := |bags| - 1;
    if k == n {
      assert LessOne(bags, k) == bags[..n];
    } else {
      UnionTakesOut(bags[..n], k);
      LessOneLast(bags, k);
      assert bags[..n][k] == bags[k];
      PlusSwaps(Union(LessOne(bags[..n], k)), bags[k], bags[n]);
    }
  }

  lemma {:induction false} LessOneLast(bags: seq<Facts>, k: nat)
    requires k < |bags| - 1
    ensures Union(LessOne(bags, k)) == Plus(Union(LessOne(bags[..|bags| - 1], k)), bags[|bags| - 1])
  {
    var n := |bags| - 1;
    var rest := LessOne(bags, k);
    assert rest[..n - 1] == LessOne(bags[..n], k) && rest[n - 1] == bags[n];
  }

  lemma {:induction false} LessOneBag<T>(s: seq<T>, k: nat)
    requires k < |s|
    ensures multiset(LessOne(s, k)) == multiset(s) - multiset{s[k]}
  {
    assert s == s[..k] + [s[k]] + s[k + 1..];
  }

  lemma {:induction false} UnionForgetsOrder(s: seq<Facts>, t: seq<Facts>)
    requires multiset(s) == multiset(t)
    ensures Union(s) == Union(t)
    decreases |s|
  {
    assert |multiset(s)| == |multiset(t)|;
    if s != [] {
      var n := |s| - 1;
      SameElements(s, t);
      assert s[n] in t;
      var k :| 0 <= k < |t| && t[k] == s[n];
      LessOneBag(s, n);
      LessOneBag(t, k);
      UnionForgetsOrder(LessOne(s, n), LessOne(t, k));
      UnionTakesOut(s, n);
      UnionTakesOut(t, k);
    }
  }

  /** Permuting the members, and the node and edge tuples inside each, pins the same facts. */
  lemma {:induction false} RearrangedMembers(a: GraphSet, b: GraphSet)
    requires a.Valid() && b.Valid() && a.missing == b.missing
    requires multiset(Bags(a.graphs)) == multiset(Bags(b.graphs))
    ensures SameFacts(a, b)
  {
    UnionOfMembers(a.graphs);
    UnionOfMembers(b.graphs);
    UnionForgetsOrder(Bags(a.graphs), Bags(b.graphs));
    SameElements(AllNodes(a.graphs), AllNodes(b.graphs));
    SameIndex(a.nodes, b.nodes, AllNodes(a.graphs), AllNodes(b.graphs));
  }

  lemma {:induction false} SameIndex(m: map<Id, Node>, n: map<Id, Node>, s: seq<Node>, t: seq<Node>)
    requires NamesNodes(m, s) && NamesNodes(n, t)
    requires forall x :: x in s <==> x in t
    ensures m == n
  {
    forall id ensures id in m <==> id in n {
      if id in m { assert m[id] in t; }
      if id in n { assert n[id] in s; }
    }
    forall id | id in m ensures m[id] == n[id] {
      assert m[id] in t;
    }
  }
}
