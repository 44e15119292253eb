/**
  For every depth, closure size and budgets that leave the depth probe no room, a scope whose
  exhaustive answer is wrong; and no other shape has one.
*/
module BlindScopes {
  import opened Ordering
  import opened Wrappers
  import opened GraphModel
  import opened Incidence
  import opened Traversal
  import opened Walks
  import opened WalkTheorems
  import opened WalkDetails
  import opened Impact
  import opened Exhaustive

  // ---------------------------------------------------------------- the scope

  /**
    A closure of `size` nodes at `hops`, the two budgets, and the number of edges the probe must
    examine. A closure that goes on beyond `hops` has a node at every distance up to it, and an
    edge for each node but the target and one for what lies beyond.
  */
  datatype Shape = Shape(hops: nat, size: nat, maxNodes: nat, maxEdges: nat, total: nat) {
    predicate Possible() {
      && hops < MAX_DEPTH && hops + 1 <= size <= maxNodes && (hops == 0 ==> size == 1)
      && size - 1 <= maxEdges && size <= total
    }

    /** The closure fills the node budget, or the edges one hop further are more than the edge budget. */
    predicate NoRoom() { size == maxNodes || total > maxEdges }

    function Asked(): Closure { Closure(Nth(0), hops, CALLER_KINDS, maxNodes, maxEdges) }

    /** The first edge that enters the closure; those before it lie inside. */
    function Inside(): (r: nat)
      requires Possible()
      ensures size - 1 <= r < total && r <= maxEdges
    {
      if maxEdges < total then maxEdges else total - 1
    }
  }

  /** How far node `i` lies from the target, node 0; node `size` lies just beyond the closure. */
  function Distance(sh: Shape, i: nat): nat {
    if i == sh.size then sh.hops + 1 else if i <= sh.hops then i else 1
  }

  function SourceAt(sh: Shape, i: nat): nat
    requires sh.Possible()
  {
    if i + 1 < sh.size then i + 1 else if i < sh.Inside() then 0 else sh.size
  }

  function TargetAt(sh: Shape, i: nat): nat
    requires sh.Possible()
  {
    if i + 1 <= sh.hops then i else if i < sh.Inside() then 0 else sh.hops
  }

  /** A chain to the last level, other callers of the target, calls of the target by itself, and entering calls. */
  function EdgeAt(sh: Shape, i: nat): Edge
    requires sh.Possible()
  {
    Edge(Nth(i), Nth(SourceAt(sh, i)), Calls, ExactStatic, Pinned(Nth(TargetAt(sh, i))))
  }

  function EdgesOf(sh: Shape): (r: seq<Edge>)
    requires sh.Possible()
    ensures |r| == sh.total && forall i :: 0 <= i < sh.total ==> r[i] == EdgeAt(sh, i)
  {
    seq(sh.total, i requires 0 <= i < sh.total => EdgeAt(sh, i))
  }

  /** The edges that do not enter the closure. */
  function InnerEdges(sh: Shape): (r: set<Edge>)
    requires sh.Possible()
    ensures forall e :: e in r ==> e.Resolved()
  {
    Elements(EdgesOf(sh)[..sh.Inside()])
  }

  function NodeAt(i: nat): Node {
    Node(Nth(i), "p", "", "")
  }

  function NodesOf(sh: Shape): (r: seq<Node>)
    ensures |r| == sh.size + 1 && forall i :: 0 <= i <= sh.size ==> r[i] == NodeAt(i)
  {
    seq(sh.size + 1, i requires 0 <= i <= sh.size => NodeAt(i))
  }

  function GraphOf(sh: Shape): Graph
    requires sh.Possible()
  {
    Graph("p", NodesOf(sh), EdgesOf(sh), COVERAGE_EXPECTED)
  }

  /** One generation as a scope, its indexes filled by filtering. */
  function ScopeOf(sh: Shape): GraphSet
    requires sh.Possible()
  {
    var ids := IdsUpTo(sh.size);
    GraphSet([GraphOf(sh)], {}, map id | id in ids :: NodeAt(|id.text|),
             map id | id in ids :: From(EdgesOf(sh), id), map id | id in ids :: Into(EdgesOf(sh), id))
  }

  function IdsUpTo(n: nat): (r: set<Id>)
    ensures forall i: nat :: i <= n ==> Nth(i) in r
    ensures forall id :: id in r ==> |id.text| <= n && id == Nth(|id.text|)
  {
    set i | 0 <= i <= n :: Nth(i)
  }

  lemma {:induction false} NthDiffers(i: nat, j: nat)
    ensures Nth(i) == Nth(j) <==> i == j
  {
    assert |Nth(i).text| == i && |Nth(j).text| == j;
  }

  lemma {:induction false} SampleGeneration(sh: Shape)
    requires sh.Possible()
    ensures GraphValid(GraphOf(sh)) && UniqueEdgeIds(EdgesOf(sh)) && Distinct(EdgesOf(sh))
  {
    var nodes, edges := NodesOf(sh), EdgesOf(sh);
    forall i, j | 0 <= i < j < |nodes| ensures nodes[i].id != nodes[j].id {
      NthDiffers(i, j);
    }
    forall i, j | 0 <= i < j < |edges| ensures edges[i].id != edges[j].id {
      NthDiffers(i, j);
    }
    forall e | e in edges ensures Pins(nodes, e.source) {
      var i :| 0 <= i < |edges| && edges[i] == e;
      assert nodes[SourceAt(sh, i)].id == e.source;
    }
  }

  lemma {:induction false} NoStranger(sh: Shape, id: Id)
    requires sh.Possible() && id !in IdsUpTo(sh.size)
    ensures From(EdgesOf(sh), id) == [] && Into(EdgesOf(sh), id) == []
  {
    var edges := EdgesOf(sh);
    forall e | e in edges ensures e.source != id && e.target != Pinned(id) {
      var i :| 0 <= i < |edges| && edges[i] == e;
      assert Nth(SourceAt(sh, i)) in IdsUpTo(sh.size) && Nth(TargetAt(sh, i)) in IdsUpTo(sh.size);
    }
    KeepNone((e: Edge) => e.source == id, edges);
    KeepNone((e: Edge) => e.target == Pinned(id), edges);
  }

  lemma {:induction false} OneMember(g: Graph)
    ensures AllNodes([g]) == g.nodes && AllEdges([g]) == g.edges
  {
    assert [g][..0] == [];
    assert AllNodes([]) == [] && AllEdges([]) == [];
    assert AllNodes([g]) == [] + g.nodes && AllEdges([g]) == [] + g.edges;
  }

  lemma {:induction false} SampleIndexes(sh: Shape)
    requires sh.Possible()
    ensures FilesSources(ScopeOf(sh).outgoing, EdgesOf(sh)) && FilesTargets(ScopeOf(sh).incoming, EdgesOf(sh))
  {
    var edges, scope := EdgesOf(sh), ScopeOf(sh);
    forall id ensures Lookup(scope.outgoing, id) == From(edges, id) && Lookup(scope.incoming, id) == Into(edges, id) {
      if id !in IdsUpTo(sh.size) { NoStranger(sh, id); }
    }
  }

  ghost predicate Samples(scope: GraphSet, sh: Shape)
    requires sh.Possible()
  {
    && scope.Valid() && scope.Edges() == EdgesOf(sh) && UniqueEdgeIds(scope.Edges())
    && Nth(0) in scope.nodes && scope.missing == {} && forall g :: g in scope.graphs ==> g.coverage == COVERAGE_EXPECTED
  }

  lemma {:induction false} SampleScope(sh: Shape)
    requires sh.Possible()
    ensures Samples(ScopeOf(sh), sh)
  {
    SampleGeneration(sh);
    OneMember(GraphOf(sh));
    SampleIndexes(sh);
    SampleNames(sh);
  }

  lemma {:induction false} SampleNames(sh: Shape)
    requires sh.Possible()
    ensures NamesNodes(ScopeOf(sh).nodes, NodesOf(sh))
  {
    var index, nodes := ScopeOf(sh).nodes, NodesOf(sh);
    forall id | id in index ensures index[id].id == id && index[id] in nodes {
      assert nodes[|id.text|] == NodeAt(|id.text|);
    }
    forall n | n in nodes ensures n.id in index && index[n.id] == n {
      var i :| 0 <= i < |nodes| && nodes[i] == n;
      assert |Nth(i).text| == i;
    }
  }

  // ---------------------------------------------------------------- its balls and edges

  /** The nodes within `k` of the target. */
  function Near(sh: Shape, k: nat): (r: set<Id>)
    ensures forall i: nat :: i <= sh.size && Distance(sh, i) <= k ==> Nth(i) in r
    ensures forall id :: id in r ==> |id.text| <= sh.size && id == Nth(|id.text|) && Distance(sh, |id.text|) <= k
  {
    set i | 0 <= i <= sh.size && Distance(sh, i) <= k :: Nth(i)
  }

  /** An edge leads at most one level inwards, and each node but the target has one that does. */
  lemma {:induction false} EdgesLeadIn(sh: Shape, i: nat)
    requires sh.Possible() && i < sh.total
    ensures TargetAt(sh, i) < sh.size && Distance(sh, SourceAt(sh, i)) <= Distance(sh, TargetAt(sh, i)) + 1
    ensures SourceAt(sh, i) == sh.size <==> i >= sh.Inside()
    ensures sh.hops > 0 ==> (Distance(sh, TargetAt(sh, i)) < sh.hops <==> i < sh.Inside())
  {
  }

  function WayIn(sh: Shape, k: nat): (i: nat)
    requires sh.Possible() && 0 < k <= sh.size
    ensures i < sh.total && SourceAt(sh, i) == k && Distance(sh, TargetAt(sh, i)) + 1 == Distance(sh, k)
  {
    if k == sh.size then sh.Inside() else k - 1
  }

  lemma {:induction false} SampleHop(sh: Shape, e: Edge, a: Id, b: Id)
    requires sh.Possible()
    ensures Hop(EdgesOf(sh), sh.Asked().Full(), e, a, b) <==>
      exists i: nat :: i < sh.total && e == EdgeAt(sh, i) && a == Nth(TargetAt(sh, i)) && b == Nth(SourceAt(sh, i))
  {
    var edges := EdgesOf(sh);
    if e in edges { var i :| 0 <= i < |edges| && edges[i] == e; }
    if i: nat :| i < sh.total && e == EdgeAt(sh, i) && a == Nth(TargetAt(sh, i)) && b == Nth(SourceAt(sh, i)) {
      assert edges[i] == e;
    }
  }

  lemma {:induction false} NextIsNear(sh: Shape, k: nat, near: set<Id>, b: Id)
    requires sh.Possible() && near == Near(sh, k) && b in Next(EdgesOf(sh), sh.Asked().Full(), near)
    ensures b in Near(sh, k + 1)
  {
    NextIsHop(EdgesOf(sh), sh.Asked().Full(), near, b);
    var e, a :| a in near && Hop(EdgesOf(sh), sh.Asked().Full(), e, a, b);
    SampleHop(sh, e, a, b);
    var i: nat :| i < sh.total && e == EdgeAt(sh, i) && a == Nth(TargetAt(sh, i)) && b == Nth(SourceAt(sh, i));
    EdgesLeadIn(sh, i);
    assert |a.text| == TargetAt(sh, i);
  }

  lemma {:induction false} NearIsNext(sh: Shape, k: nat, near: set<Id>, b: Id)
    requires sh.Possible() && near == Near(sh, k) && b in Near(sh, k + 1) && b !in near
    ensures b in Next(EdgesOf(sh), sh.Asked().Full(), near)
  {
    var i := WayIn(sh, |b.text|);
    var a, e := Nth(TargetAt(sh, i)), EdgeAt(sh, i);
    EdgesLeadIn(sh, i);
    SampleHop(sh, e, a, b);
    NextIsHop(EdgesOf(sh), sh.Asked().Full(), near, b);
  }

  lemma {:induction false} SampleNext(sh: Shape, k: nat)
    requires sh.Possible()
    ensures Near(sh, k) + Next(EdgesOf(sh), sh.Asked().Full(), Near(sh, k)) == Near(sh, k + 1)
  {
    var near := Near(sh, k);
    forall b ensures b in near + Next(EdgesOf(sh), sh.Asked().Full(), near) <==> b in Near(sh, k + 1) {
      if b in near {
        assert b == Nth(|b.text|);
      } else if b in Near(sh, k + 1) {
        NearIsNext(sh, k, near, b);
      } else if b in Next(EdgesOf(sh), sh.Asked().Full(), near) {
        NextIsNear(sh, k, near, b);
      }
    }
  }

  lemma {:induction false} SampleBall(sh: Shape, k: nat)
    requires sh.Possible()
    ensures Ball(EdgesOf(sh), sh.Asked().Full(), {Nth(0)}, k) == Near(sh, k)
  {
    if k == 0 {
      assert Near(sh, 0) == {Nth(0)};
    } else {
      SampleBall(sh, k - 1);
      SameStep(EdgesOf(sh), sh.Asked().Full(), Ball(EdgesOf(sh), sh.Asked().Full(), {Nth(0)}, k - 1), Near(sh, k - 1));
      SampleNext(sh, k - 1);
    }
  }

  lemma {:induction false} NearSize(sh: Shape)
    requires sh.Possible()
    ensures |Near(sh, sh.hops)| == sh.size && Nth(sh.size) !in Near(sh, sh.hops)
  {
    var ids := seq(sh.size, i requires 0 <= i < sh.size => Nth(i));
    forall i, j | 0 <= i < j < |ids| ensures ids[i] != ids[j] {
      NthDiffers(i, j);
    }
    DistinctSize(ids);
    assert |Nth(sh.size).text| == sh.size;
    forall id ensures id in Near(sh, sh.hops) <==> id in Elements(ids) {
      if id in Near(sh, sh.hops) { assert ids[|id.text|] == id; }
      if id in ids { var i :| 0 <= i < |ids| && ids[i] == id; }
    }
    assert Near(sh, sh.hops) == Elements(ids);
  }

  lemma {:induction false} SampleExaminedAt(sh: Shape, k: nat)
    requires sh.Possible() && k <= sh.hops <= k + 1
    ensures Examined(EdgesOf(sh), sh.Asked().Full(), {Nth(0)}, k + 1) ==
      Elements(if k == sh.hops then EdgesOf(sh) else EdgesOf(sh)[..sh.Inside()])
  {
    SampleBall(sh, k);
    SampleAround(sh, k);
    ExaminedAround(EdgesOf(sh), sh.Asked().Full(), {Nth(0)}, k, Near(sh, k));
  }

  /** The edges the walk examines lie inside; the probe must examine them all. */
  lemma {:induction false} SampleExamined(sh: Shape)
    requires sh.Possible()
    ensures var edges, f := EdgesOf(sh), sh.Asked().Full();
      && Examined(edges, f, {Nth(0)}, sh.hops) == (if sh.hops == 0 then {} else InnerEdges(sh))
      && Examined(edges, f, {Nth(0)}, sh.hops + 1) == Elements(edges)
  {
    SampleExaminedAt(sh, sh.hops);
    if sh.hops > 0 { SampleExaminedAt(sh, sh.hops - 1); }
  }

  lemma {:induction false} ExaminedAround(edges: seq<Edge>, f: Filter, roots: set<Id>, k: nat, ball: set<Id>)
    requires Ball(edges, f, roots, k) == ball
    ensures Examined(edges, f, roots, k + 1) == Around(edges, f, ball)
  {
  }

  lemma {:induction false} SampleAround(sh: Shape, k: nat)
    requires sh.Possible() && k <= sh.hops <= k + 1
    ensures Around(EdgesOf(sh), sh.Asked().Full(), Near(sh, k)) ==
      Elements(if k == sh.hops then EdgesOf(sh) else EdgesOf(sh)[..sh.Inside()])
  {
    var edges, f := EdgesOf(sh), sh.Asked().Full();
    var part := if k == sh.hops then edges else edges[..sh.Inside()];
    forall e ensures e in Around(edges, f, Near(sh, k)) <==> e in part {
      if e in edges {
        var i :| 0 <= i < |edges| && edges[i] == e;
        EdgesLeadIn(sh, i);
        assert |Nth(TargetAt(sh, i)).text| == TargetAt(sh, i);
        PartHas(sh, part, i);
      }
    }
  }

  lemma {:induction false} PartHas(sh: Shape, part: seq<Edge>, i: nat)
    requires sh.Possible() && i < sh.total && part <= EdgesOf(sh)
    ensures EdgesOf(sh)[i] in part <==> i < |part|
  {
    var edges := EdgesOf(sh);
    if edges[i] in part {
      var j :| 0 <= j < |part| && part[j] == edges[i];
      NthDiffers(i, j);
    }
    if i < |part| { assert part[i] == edges[i]; }
  }

  // ---------------------------------------------------------------- what the probe records

  /** Edges are recorded in the order they come, until the edge budget is spent. */
  lemma {:induction false} FirstCome(st: State, n: Id, part: seq<Edge>, q: Query)
    requires st.walked == {} && st.unresolved == {} && RepeatFree(part) && forall e :: e in part ==> e.Resolved()
    ensures var t := ExamineAll(st, n, part, q);
      t.walked == Elements(Upto(part, q.maxEdges)) && t.unresolved == {}
  {
    if part != [] {
      var front, e := part[..|part| - 1], part[|part| - 1];
      assert part == front + [e];
      FirstCome(st, n, front, q);
      var s := ExamineAll(st, n, front, q);
      RecordNext(s, n, front, e, q);
    }
  }

  function Upto<T>(s: seq<T>, n: nat): seq<T> {
    if n < |s| then s[..n] else s
  }

  lemma {:induction false} NextIsFresh(front: seq<Edge>, e: Edge, n: nat)
    requires RepeatFree(front + [e])
    ensures |Elements(Upto(front, n))| == |Upto(front, n)| && !HasId(Elements(Upto(front, n)), e.id)
    ensures Elements(Upto(front + [e], n)) == Elements(Upto(front, n)) + if |front| < n then {e} else {}
  {
    var kept := Upto(front, n);
    forall i, j | 0 <= i < j < |kept| ensures kept[i] != kept[j] {
      assert (front + [e])[i].id != (front + [e])[j].id;
    }
    DistinctSize(kept);
    forall d | d in kept ensures d.id != e.id {
      var i :| 0 <= i < |kept| && kept[i] == d;
      assert (front + [e])[i].id != (front + [e])[|front|].id;
    }
    if |front| < n {
      assert Upto(front + [e], n) == front + [e];
    } else {
      assert Upto(front + [e], n) == kept;
    }
  }

  lemma {:induction false} FollowLeavesEdges(st: State, n: Id, other: Option<Id>, q: Query)
    ensures Follow(st, n, other, q).walked == st.walked && Follow(st, n, other, q).unresolved == st.unresolved
  {
  }

  lemma {:induction false} RecordNext(st: State, n: Id, front: seq<Edge>, e: Edge, q: Query)
    requires st.walked == Elements(Upto(front, q.maxEdges)) && st.unresolved == {}
    requires RepeatFree(front + [e]) && e.Resolved()
    ensures var t := Examine(st, n, e, q); t.walked == Elements(Upto(front + [e], q.maxEdges)) && t.unresolved == {}
  {
    NextIsFresh(front, e, q.maxEdges);
    FollowLeavesEdges(Note(st, e), n, OtherEnd(e, n, q.filter.heading), q);
  }

  lemma {:induction false} SampleSorted(sh: Shape)
    requires sh.Possible()
    ensures Sorted(EdgeLe, EdgesOf(sh)) && RepeatFree(EdgesOf(sh)) && TieFree(EdgeLe, EdgesOf(sh))
  {
    var edges := EdgesOf(sh);
    forall i, j | 0 <= i < j < |edges| ensures EdgeLe(edges[i], edges[j]) && edges[i].id != edges[j].id {
      NthGrows(i, j);
    }
    SampleGeneration(sh);
    NoTies(edges);
  }

  lemma {:induction false} SortFixes<T(!new)>(le: (T, T) -> bool, s: seq<T>)
    requires Preorder(le) && Sorted(le, s) && TieFree(le, s)
    ensures Sort(le, s) == s
  {
    SortSorted(le, s);
    SortedUnique(le, s, Sort(le, s));
  }

  lemma {:induction false} AllTouch(edges: seq<Edge>, n: Id, f: Filter)
    requires f.heading == Incoming && forall e :: e in edges ==> e.target == Pinned(n) && f.Admits(e)
    ensures Touching(edges, n, f) == edges
  {
    KeepAll((e: Edge) => e.target == Pinned(n), edges);
    KeepAll((e: Edge) => f.Admits(e), edges);
  }

  lemma {:induction false} SampleTouching(sh: Shape)
    requires sh.Possible() && sh.hops == 0
    ensures Touching(EdgesOf(sh), Nth(0), sh.Asked().Full()) == EdgesOf(sh)
  {
    AllTouch(EdgesOf(sh), Nth(0), sh.Asked().Full());
  }

  lemma {:induction false} SampleStaysSorted(sh: Shape)
    requires sh.Possible()
    ensures Sort(EdgeLe, EdgesOf(sh)) == EdgesOf(sh)
  {
    EdgeOrder();
    SampleSorted(sh);
    SortFixes(EdgeLe, EdgesOf(sh));
  }

  /** At depth 0 every edge of the scope points at the target, and they are examined in order. */
  lemma {:induction false} SampleIncident(scope: GraphSet, sh: Shape)
    requires sh.Possible() && sh.hops == 0 && Samples(scope, sh)
    ensures Incident(scope, Nth(0), sh.Asked().Full()) == EdgesOf(sh)
  {
    IncidentIsTouching(scope, Nth(0), sh.Asked().Full());
    SampleTouching(sh);
    SampleStaysSorted(sh);
  }

  lemma {:induction false} OneId(x: Id)
    ensures SortedIds({x}) == [x]
  {
    assert {x} - {Least({x})} == {};
  }

  lemma {:induction false} StartAt(scope: GraphSet, q: Query, target: Id)
    requires q.roots == [target] && q.maxNodes > 0 && Levels(scope, q, 0).Success?
    ensures var lv := Levels(scope, q, 0).value; lv.current == [target] && lv.state.walked == {} && lv.state.unresolved == {}
  {
    assert Elements([target]) == {target};
    OneId(target);
  }

  lemma {:induction false} ExpandOne(scope: GraphSet, st: State, target: Id, q: Query)
    ensures ExpandAll(scope, st, [target], q) == ExamineAll(st, target, Incident(scope, target, q.filter), q)
  {
    assert [target][..0] == [];
    assert ExpandAll(scope, st, [], q) == st;
  }

  lemma {:induction false} OneLevelWalk(scope: GraphSet, q: Query)
    requires q.depth == 1 && WalkOf(scope, q).Success?
    ensures Levels(scope, q, 0).Success?
    ensures var lv := Levels(scope, q, 0).value; WalkOf(scope, q).value.edges == ExpandAll(scope, lv.state, lv.current, q).walked
  {
    UnfoldLevel(scope, q, 1);
  }

  lemma {:induction false} FirstLevel(scope: GraphSet, q: Query, target: Id, part: seq<Edge>)
    requires q.roots == [target] && q.depth == 1 && q.maxNodes > 0 && WalkOf(scope, q).Success?
    requires part == Incident(scope, target, q.filter) && RepeatFree(part) && forall e :: e in part ==> e.Resolved()
    ensures WalkOf(scope, q).value.edges == Elements(Upto(part, q.maxEdges))
  {
    OneLevelWalk(scope, q);
    StartAt(scope, q, target);
    var st := Levels(scope, q, 0).value.state;
    ExpandOne(scope, st, target, q);
    FirstCome(st, target, part, q);
  }

  lemma {:induction false} ProbeKeepsEdges(scope: GraphSet, c: Closure)
    requires scope.Valid() && UniqueEdgeIds(scope.Edges()) && Answered(scope, c)
    ensures WalkOf(scope, c.Walk()).value.edges <= WalkOf(scope, c.Probe()).value.edges
  {
    var q := c.Walk();
    assert c.Probe() == q.(depth := q.depth + 1);
    DeeperWalk(scope, q);
  }

  /** A walk that spends the edge budget leaves its probe no edge more. */
  lemma {:induction false} BudgetSpent(scope: GraphSet, c: Closure, part: set<Edge>)
    requires scope.Valid() && UniqueEdgeIds(scope.Edges()) && Answered(scope, c)
    requires part == WalkOf(scope, c.Walk()).value.edges && |part| == c.maxEdges
    ensures WalkOf(scope, c.Probe()).value.edges == part
  {
    ProbeKeepsEdges(scope, c);
    WalkFits(scope, c.Probe());
    SubsetSize(part, WalkOf(scope, c.Probe()).value.edges);
  }

  /** More edges than the budget: the probe records those inside and none that enters. */
  lemma {:induction false} ProbeStaysInside(scope: GraphSet, sh: Shape)
    requires sh.Possible() && sh.total > sh.maxEdges && Samples(scope, sh) && Answered(scope, sh.Asked())
    requires sh.hops > 0 ==> WalkOf(scope, sh.Asked().Walk()).value.edges == InnerEdges(sh)
    ensures WalkOf(scope, sh.Asked().Probe()).value.edges == InnerEdges(sh)
  {
    if sh.hops == 0 {
      SampleIncident(scope, sh);
      SampleSorted(sh);
      FirstLevel(scope, sh.Asked().Probe(), Nth(0), EdgesOf(sh));
    } else {
      InsideSize(sh);
      BudgetSpent(scope, sh.Asked(), InnerEdges(sh));
    }
  }

  lemma {:induction false} InsideSize(sh: Shape)
    requires sh.Possible()
    ensures |InnerEdges(sh)| == sh.Inside() && |Elements(EdgesOf(sh))| == sh.total
  {
    SampleGeneration(sh);
    DistinctSize(EdgesOf(sh));
    DistinctSize(EdgesOf(sh)[..sh.Inside()]);
  }

  // ---------------------------------------------------------------- every shape without room is unsafe

  lemma {:induction false} FittingWalk(scope: GraphSet, q: Query, target: Id, ball: set<Id>, around: set<Edge>)
    requires scope.Valid() && UniqueEdgeIds(scope.Edges()) && WalkOf(scope, q).Success? && q.roots == [target]
    requires ball == Ball(scope.Edges(), q.filter, {target}, q.depth) && |ball| <= q.maxNodes
    requires around == Examined(scope.Edges(), q.filter, {target}, q.depth) && |around| <= q.maxEdges
    requires forall e :: e in around ==> e.Resolved()
    ensures var w := WalkOf(scope, q).value; !w.Truncated() && w.nodes == ball && w.edges == around && w.unresolved == {}
  {
    assert Elements([target]) == {target};
    WalkIsExact(scope, q);
  }

  /** What the walk at `hops` visits and examines, within both budgets. */
  lemma {:induction false} SampleFits(sh: Shape, ball: set<Id>, around: set<Edge>)
    requires sh.Possible() && ball == Near(sh, sh.hops) && around == if sh.hops == 0 then {} else InnerEdges(sh)
    ensures ball == Ball(EdgesOf(sh), sh.Asked().Full(), {Nth(0)}, sh.hops) && |ball| <= sh.maxNodes
    ensures around == Examined(EdgesOf(sh), sh.Asked().Full(), {Nth(0)}, sh.hops) && |around| <= sh.maxEdges
  {
    SampleBall(sh, sh.hops);
    SampleExamined(sh);
    InsideSize(sh);
    NearSize(sh);
  }

  lemma {:induction false} SampleWalk(scope: GraphSet, sh: Shape)
    requires sh.Possible() && Samples(scope, sh) && WalkOf(scope, sh.Asked().Walk()).Success?
    ensures var w := WalkOf(scope, sh.Asked().Walk()).value;
      && !w.Truncated() && w.nodes == Near(sh, sh.hops) && w.unresolved == {}
      && w.edges == (if sh.hops == 0 then {} else InnerEdges(sh))
  {
    var ball, around := Near(sh, sh.hops), if sh.hops == 0 then {} else InnerEdges(sh);
    SampleFits(sh, ball, around);
    FittingWalk(scope, sh.Asked().Walk(), Nth(0), ball, around);
  }

  lemma {:induction false} SampleShortfalls(fold: Fold, scope: GraphSet, sh: Shape)
    requires sh.Possible() && Samples(scope, sh) && Answered(scope, sh.Asked())
    requires var w := WalkOf(scope, sh.Asked().Walk()).value; !w.Truncated() && w.unresolved == {}
    ensures ReportOf(fold, scope, sh.Asked()).incomplete <= {DepthLimited}
  {
    var w := WalkOf(scope, sh.Asked().Walk()).value;
    assert NamedBy(fold, scope, w.nodes + {Nth(0)}) == {};
  }

  /** An answer of this shape that calls itself exhaustive and is wrong. */
  ghost predicate Misleads(fold: Fold, scope: GraphSet, c: Closure, sh: Shape) {
    && scope.Valid() && UniqueEdgeIds(scope.Edges()) && c.target in scope.nodes && Answered(scope, c)
    && ReportOf(fold, scope, c).exhaustive && !Everything(fold, scope, c)
    && sh == ShapeOf(fold, scope, c)
  }

  ghost function ShapeOf(fold: Fold, scope: GraphSet, c: Closure): Shape
    requires Answered(scope, c)
  {
    Shape(c.hops, |ReportOf(fold, scope, c).closure| + 1, c.maxNodes, c.maxEdges,
          |Examined(scope.Edges(), c.Full(), {c.target}, c.hops + 1)|)
  }

  /** Every possible shape without room has a scope whose exhaustive answer misses something. */
  lemma {:induction false} NoRoomMisleads(fold: Fold, sh: Shape) returns (scope: GraphSet)
    requires sh.Possible() && sh.NoRoom()
    ensures Misleads(fold, scope, sh.Asked(), sh)
  {
    scope := ScopeOf(sh);
    SampleScope(sh);
    var c := sh.Asked();
    AlwaysAnswered(scope, c);
    SampleWalk(scope, sh);
    SampleShortfalls(fold, scope, sh);
    SampleShape(fold, scope, sh);
    SampleEnters(scope, sh, sh.Inside());
    if sh.total > sh.maxEdges { NoneRecorded(scope, sh); }
    ExhaustiveIsWrongExactly(fold, scope, c);
  }

  lemma {:induction false} SampleShape(fold: Fold, scope: GraphSet, sh: Shape)
    requires sh.Possible() && Samples(scope, sh) && Answered(scope, sh.Asked())
    requires var w := WalkOf(scope, sh.Asked().Walk()).value; !w.Truncated() && w.nodes == Near(sh, sh.hops)
    ensures ShapeOf(fold, scope, sh.Asked()) == sh
    ensures ReportOf(fold, scope, sh.Asked()).closure + {Nth(0)} == Near(sh, sh.hops)
  {
    NodesAreClosure(fold, scope, sh.Asked());
    NearSize(sh);
    SampleExamined(sh);
    InsideSize(sh);
  }

  lemma {:induction false} NearHas(sh: Shape, i: nat)
    requires sh.Possible() && i <= sh.size
    ensures Nth(i) in Near(sh, sh.hops) <==> i != sh.size
  {
    assert |Nth(i).text| == i;
  }

  lemma {:induction false} EntersSays(scope: GraphSet, c: Closure, nodes: set<Id>, e: Edge)
    requires e in scope.Edges() && c.Full().Admits(e) && e.Resolved()
    ensures Enters(scope, c, nodes, e) <==> e.target.id in nodes && e.source !in nodes
  {
  }

  lemma {:induction false} SampleEnters(scope: GraphSet, sh: Shape, i: nat)
    requires sh.Possible() && i < sh.total && scope.Edges() == EdgesOf(sh)
    ensures Enters(scope, sh.Asked(), Near(sh, sh.hops), EdgeAt(sh, i)) <==> i >= sh.Inside()
  {
    EdgesLeadIn(sh, i);
    NearHas(sh, SourceAt(sh, i));
    NearHas(sh, TargetAt(sh, i));
    assert EdgesOf(sh)[i] == EdgeAt(sh, i);
    EntersSays(scope, sh.Asked(), Near(sh, sh.hops), EdgeAt(sh, i));
  }

  lemma {:induction false} NoneRecorded(scope: GraphSet, sh: Shape)
    requires sh.Possible() && sh.total > sh.maxEdges && Samples(scope, sh) && Answered(scope, sh.Asked())
    requires sh.hops > 0 ==> WalkOf(scope, sh.Asked().Walk()).value.edges == InnerEdges(sh)
    ensures forall e :: Enters(scope, sh.Asked(), Near(sh, sh.hops), e) ==>
      e !in WalkOf(scope, sh.Asked().Probe()).value.edges
  {
    ProbeStaysInside(scope, sh);
    forall e | Enters(scope, sh.Asked(), Near(sh, sh.hops), e) ensures e !in InnerEdges(sh) {
      EntersOutside(scope, sh, e);
    }
  }

  lemma {:induction false} EntersOutside(scope: GraphSet, sh: Shape, e: Edge)
    requires sh.Possible() && scope.Edges() == EdgesOf(sh) && Enters(scope, sh.Asked(), Near(sh, sh.hops), e)
    ensures e !in InnerEdges(sh)
  {
    var edges := EdgesOf(sh);
    var i :| 0 <= i < |edges| && edges[i] == e;
    SampleEnters(scope, sh, i);
    PartHas(sh, edges[..sh.Inside()], i);
  }

  /**
    The edge budget alone blinds the probe: with room for 49 nodes more and no edge to spend, a
    caller of the target goes unseen and the answer calls itself exhaustive.
  */
  lemma {:induction false} EdgeBlindSpot(fold: Fold) returns (scope: GraphSet, c: Closure, source: Id)
    ensures scope.Valid() && UniqueEdgeIds(scope.Edges()) && c.target in scope.nodes && Answered(scope, c)
    ensures c.hops == 0 && c.maxNodes == DEFAULT_MAX_NODES && c.maxEdges == 0
    ensures ReportOf(fold, scope, c).exhaustive && |ReportOf(fold, scope, c).closure| + 1 < c.maxNodes
    ensures source !in ReportOf(fold, scope, c).closure + {c.target}
    ensures Connected(scope.Edges(), c.Full(), c.target, source)
  {
    var sh := Shape(0, 1, DEFAULT_MAX_NODES, 0, 1);
    scope := NoRoomMisleads(fold, sh);
    c := sh.Asked();
    source :| Connected(scope.Edges(), c.Full(), c.target, source) && source !in ReportOf(fold, scope, c).closure + {c.target};
  }

  // ---------------------------------------------------------------- no other shape is

  function Sources(part: set<Edge>): set<Id> {
    set e | e in part :: e.source
  }

  lemma {:induction false} SourcesSize(part: set<Edge>)
    ensures |Sources(part)| <= |part|
  {
    if part != {} {
      var e :| e in part;
      SourcesSize(part - {e});
      assert Sources(part) == Sources(part - {e}) + {e.source};
    }
  }

  /** Walking backwards, every node but the root is the source of an examined edge. */
  lemma {:induction false} BallHasSources(edges: seq<Edge>, f: Filter, root: Id, k: nat)
    requires f.heading == Incoming
    ensures Ball(edges, f, {root}, k) <= {root} + Sources(Examined(edges, f, {root}, k))
    decreases k
  {
    if k > 0 {
      BallHasSources(edges, f, root, k - 1);
      ExaminedGrows(edges, f, {root}, k - 1, k);
      NextHasSources(edges, f, Ball(edges, f, {root}, k - 1));
    }
  }

  lemma {:induction false} NextHasSources(edges: seq<Edge>, f: Filter, inner: set<Id>)
    requires f.heading == Incoming
    ensures Next(edges, f, inner) <= Sources(Around(edges, f, inner))
  {
  }

  lemma {:induction false} BallBehindEdges(edges: seq<Edge>, f: Filter, root: Id, k: nat)
    requires f.heading == Incoming
    ensures |Ball(edges, f, {root}, k)| <= |Examined(edges, f, {root}, k)| + 1
  {
    var part := Examined(edges, f, {root}, k);
    BallHasSources(edges, f, root, k);
    SourcesSize(part);
    SubsetSize(Ball(edges, f, {root}, k), {root} + Sources(part));
    assert |{root} + Sources(part)| <= 1 + |Sources(part)|;
  }

  lemma {:induction false} ProperlyLarger<T>(a: set<T>, b: set<T>)
    requires a <= b && a != b
    ensures |a| < |b|
  {
    SubsetSize(a, b);
  }

  lemma {:induction false} GrowsByOne(edges: seq<Edge>, f: Filter, root: Id, k: nat, before: set<Id>, after: set<Id>)
    requires k > 0 && before == Ball(edges, f, {root}, k - 1) && after == Ball(edges, f, {root}, k) && before != after
    ensures |before| < |after|
  {
    BallGrows(edges, f, {root}, k - 1, k);
    ProperlyLarger(before, after);
  }

  lemma {:induction false} GrewBefore(edges: seq<Edge>, f: Filter, before: set<Id>, ball: set<Id>, after: set<Id>)
    requires ball == before + Next(edges, f, before) && after == ball + Next(edges, f, ball) && ball != after
    ensures before != ball
  {
  }

  /** A ball that still grows has grown at every level. */
  lemma {:induction false} GrowingBall(edges: seq<Edge>, f: Filter, root: Id, k: nat, ball: set<Id>)
    requires ball == Ball(edges, f, {root}, k) && ball + Next(edges, f, ball) != ball
    ensures k + 1 <= |ball|
  {
    if k > 0 {
      var before := Ball(edges, f, {root}, k - 1);
      GrewBefore(edges, f, before, ball, ball + Next(edges, f, ball));
      GrowingBall(edges, f, root, k - 1, before);
      GrowsByOne(edges, f, root, k, before, ball);
    }
  }

  lemma {:induction false} GrowingNeedsEdges(edges: seq<Edge>, f: Filter, root: Id, k: nat)
    requires f.heading == Incoming && Ball(edges, f, {root}, k + 1) != Ball(edges, f, {root}, k)
    ensures |Ball(edges, f, {root}, k)| <= |Examined(edges, f, {root}, k + 1)|
  {
    GrowsByOne(edges, f, root, k + 1, Ball(edges, f, {root}, k), Ball(edges, f, {root}, k + 1));
    BallBehindEdges(edges, f, root, k + 1);
  }

  lemma {:induction false} GrowingShape(fold: Fold, scope: GraphSet, c: Closure, size: nat)
    requires scope.Valid() && UniqueEdgeIds(scope.Edges()) && Answered(scope, c) && !Everything(fold, scope, c)
    requires !WalkOf(scope, c.Walk()).value.Truncated() && size == |ReportOf(fold, scope, c).closure| + 1
    ensures c.hops + 1 <= size <= |Examined(scope.Edges(), c.Full(), {c.target}, c.hops + 1)|
    ensures size <= c.maxEdges + 1 && size <= c.maxNodes && (c.hops == 0 ==> size == 1)
  {
    NodesAreClosure(fold, scope, c);
    WalkFits(scope, c.Walk());
    ClosureGoesOn(fold, scope, c);
    GrowingBall(scope.Edges(), c.Full(), c.target, c.hops, WalkOf(scope, c.Walk()).value.nodes);
    GrowingNeedsEdges(scope.Edges(), c.Full(), c.target, c.hops);
    EdgesFit(scope, c);
  }

  /** An exhaustive answer that is wrong is of a possible shape without room. */
  lemma {:induction false} MisleadingHasNoRoom(fold: Fold, scope: GraphSet, c: Closure, sh: Shape)
    requires Misleads(fold, scope, c, sh)
    ensures sh.Possible() && sh.NoRoom()
  {
    NoShortfall(fold, scope, c);
    GrowingShape(fold, scope, c, sh.size);
    if !sh.NoRoom() { RoomIsRight(fold, scope, c, sh); }
  }

  lemma {:induction false} ClosureGoesOn(fold: Fold, scope: GraphSet, c: Closure)
    requires scope.Valid() && UniqueEdgeIds(scope.Edges()) && Answered(scope, c) && !Everything(fold, scope, c)
    requires !WalkOf(scope, c.Walk()).value.Truncated()
    ensures WalkOf(scope, c.Walk()).value.nodes == Ball(scope.Edges(), c.Full(), {c.target}, c.hops)
    ensures Ball(scope.Edges(), c.Full(), {c.target}, c.hops + 1) != Ball(scope.Edges(), c.Full(), {c.target}, c.hops)
  {
    ClosureIsBall(fold, scope, c);
    NodesAreClosure(fold, scope, c);
    WholeOrGrowing(scope.Edges(), c.Full(), c.target, c.hops);
  }

  lemma {:induction false} EdgesFit(scope: GraphSet, c: Closure)
    requires scope.Valid() && UniqueEdgeIds(scope.Edges()) && Answered(scope, c)
    requires !WalkOf(scope, c.Walk()).value.Truncated()
    ensures |Ball(scope.Edges(), c.Full(), {c.target}, c.hops)| <= c.maxEdges + 1
  {
    assert Elements([c.target]) == {c.target};
    WalkIsExact(scope, c.Walk());
    BallBehindEdges(scope.Edges(), c.Full(), c.target, c.hops);
  }

  lemma {:induction false} RoomIsRight(fold: Fold, scope: GraphSet, c: Closure, sh: Shape)
    requires scope.Valid() && UniqueEdgeIds(scope.Edges()) && c.target in scope.nodes && Answered(scope, c)
    requires ReportOf(fold, scope, c).exhaustive && sh == ShapeOf(fold, scope, c)
    requires sh.size < sh.maxNodes && sh.total <= sh.maxEdges
    ensures Everything(fold, scope, c)
  {
    forall n | Connected(scope.Edges(), c.Full(), c.target, n) ensures n in ReportOf(fold, scope, c).closure + {c.target} {
      ExhaustiveWithRoom(fold, scope, c, n);
    }
  }
}
