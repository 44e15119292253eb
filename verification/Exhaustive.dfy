/** When an answer of `impact` that calls itself exhaustive is wrong, exactly. */
module Exhaustive {
  import opened Ordering
  import opened Wrappers
  import opened GraphModel
  import opened Incidence
  import opened Traversal
  import opened Selectors
  import opened Walks
  import opened WalkTheorems
  import opened WalkDetails
  import opened Impact

  // ---------------------------------------------------------------- the exact condition

  /** What the probe adds to the nodes of the walk it comes after. */
  ghost predicate Probes(scope: GraphSet, c: Closure, nodes: set<Id>, p: Walk) {
    && nodes <= p.nodes && |p.nodes| <= c.maxNodes && (p.nodesCut ==> |p.nodes| == c.maxNodes)
    && (forall x :: x in p.nodes && x !in nodes ==> HasHop(scope.Edges(), c.Full(), nodes, p.edges, x))
    && (p.nodesCut || forall e :: e in p.edges ==> e.source in p.nodes)
  }

  lemma {:induction false} ProbeAdds(scope: GraphSet, c: Closure)
    requires scope.Valid() && UniqueEdgeIds(scope.Edges()) && Answered(scope, c)
    ensures Probes(scope, c, WalkOf(scope, c.Walk()).value.nodes, WalkOf(scope, c.Probe()).value)
  {
    var q := c.Walk();
    assert c.Probe() == q.(depth := q.depth + 1);
    WalkFits(scope, c.Probe());
    DeeperWalk(scope, q);
  }

  lemma {:induction false} WalkFits(scope: GraphSet, q: Query)
    requires scope.Valid() && UniqueEdgeIds(scope.Edges()) && WalkOf(scope, q).Success?
    ensures |WalkOf(scope, q).value.nodes| <= q.maxNodes
    ensures WalkOf(scope, q).value.nodesCut ==> |WalkOf(scope, q).value.nodes| == q.maxNodes
    ensures |WalkOf(scope, q).value.edges| <= q.maxEdges
  {
    WalkIsExact(scope, q);
  }

  lemma {:induction false} UnrecordedIsBlind(scope: GraphSet, c: Closure, nodes: set<Id>, p: Walk)
    requires Probes(scope, c, nodes, p) && forall e :: Enters(scope, c, nodes, e) ==> e !in p.edges
    ensures p.nodes == nodes
  {
    forall x | x in p.nodes ensures x in nodes {
      assert x !in nodes ==> HasHop(scope.Edges(), c.Full(), nodes, p.edges, x);
    }
  }

  lemma {:induction false} RecordedSees(scope: GraphSet, c: Closure, nodes: set<Id>, p: Walk, e: Edge)
    requires Probes(scope, c, nodes, p) && Enters(scope, c, nodes, e) && e in p.edges && |p.nodes| <= |nodes|
    ensures |nodes| == c.maxNodes
  {
    SubsetSize(nodes, p.nodes);
    assert p.nodes == nodes && p.nodesCut;
  }

  /** The probe counts no more nodes exactly when the closure fills the budget or no entering edge was recorded. */
  lemma {:induction false} ProbeIsBlindExactly(scope: GraphSet, c: Closure, nodes: set<Id>, p: Walk)
    requires Probes(scope, c, nodes, p) && exists e :: Enters(scope, c, nodes, e)
    ensures |p.nodes| <= |nodes| <==> |nodes| == c.maxNodes || forall e :: Enters(scope, c, nodes, e) ==> e !in p.edges
  {
    if forall e :: Enters(scope, c, nodes, e) ==> e !in p.edges {
      UnrecordedIsBlind(scope, c, nodes, p);
    } else if |p.nodes| <= |nodes| {
      var e :| Enters(scope, c, nodes, e) && e in p.edges;
      RecordedSees(scope, c, nodes, p, e);
    }
  }

  /** The answer lists everything that reaches the target. */
  ghost predicate Everything(fold: Fold, scope: GraphSet, c: Closure)
    requires Answered(scope, c)
  {
    forall n :: Connected(scope.Edges(), c.Full(), c.target, n) ==> n in ReportOf(fold, scope, c).closure + {c.target}
  }

  lemma {:induction false} NoOtherShortfall(fold: Fold, scope: GraphSet, c: Closure)
    requires Answered(scope, c) && c.hops < MAX_DEPTH && ReportOf(fold, scope, c).incomplete <= {DepthLimited}
    ensures !WalkOf(scope, c.Walk()).value.Truncated()
    ensures ReportOf(fold, scope, c).exhaustive <==>
      |WalkOf(scope, c.Probe()).value.nodes| <= |WalkOf(scope, c.Walk()).value.nodes|
  {
    var s := Shortfalls(fold, scope, c);
    assert Truncated !in s;
    if DepthLimits(scope, c) { assert DepthLimited in s; } else { assert DepthLimited !in s; assert s == {}; }
  }

  /**
    Below the depth cap and with no other shortfall, an answer calls itself exhaustive and is wrong
    exactly when some edge enters the closure from outside, and the closure fills the node budget or
    the edge budget kept the probe from recording any such edge.
  */
  lemma {:induction false} ExhaustiveIsWrongExactly(fold: Fold, scope: GraphSet, c: Closure)
    requires scope.Valid() && UniqueEdgeIds(scope.Edges()) && c.target in scope.nodes && Answered(scope, c)
    requires c.hops < MAX_DEPTH && ReportOf(fold, scope, c).incomplete <= {DepthLimited}
    ensures var closure, probe := ReportOf(fold, scope, c).closure, WalkOf(scope, c.Probe()).value;
      (ReportOf(fold, scope, c).exhaustive && !Everything(fold, scope, c)) <==>
        && (exists e :: Enters(scope, c, closure + {c.target}, e))
        && (|closure| + 1 == c.maxNodes || forall e :: Enters(scope, c, closure + {c.target}, e) ==> e !in probe.edges)
  {
    NoOtherShortfall(fold, scope, c);
    ClosureIsBall(fold, scope, c);
    var w := WalkOf(scope, c.Walk()).value;
    NodesAreClosure(fold, scope, c);
    GoesOnIffEntered(scope, c, w.nodes);
    WholeOrGrowing(scope.Edges(), c.Full(), c.target, c.hops);
    ProbeAdds(scope, c);
    if exists e :: Enters(scope, c, w.nodes, e) { ProbeIsBlindExactly(scope, c, w.nodes, WalkOf(scope, c.Probe()).value); }
  }

  lemma {:induction false} NodesAreClosure(fold: Fold, scope: GraphSet, c: Closure)
    requires scope.Valid() && UniqueEdgeIds(scope.Edges()) && Answered(scope, c)
    requires !WalkOf(scope, c.Walk()).value.Truncated()
    ensures var w, r := WalkOf(scope, c.Walk()).value, ReportOf(fold, scope, c);
      r.closure + {c.target} == w.nodes && |r.closure| + 1 == |w.nodes|
  {
    WalkIsExact(scope, c.Walk());
    TargetInBall(scope.Edges(), c.Full(), c.target, c.hops);
    var w, r := WalkOf(scope, c.Walk()).value, ReportOf(fold, scope, c);
    assert c.target in w.nodes && c.target !in r.closure;
    assert w.nodes == r.closure + {c.target};
  }
}
