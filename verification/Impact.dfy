/** `impact`: the bounded reverse closure of a target, and how complete it claims to be. */
module Impact {
  import opened Ordering
  import opened Wrappers
  import opened GraphModel
  import opened Incidence
  import opened Traversal
  import opened Selectors
  import opened Walks
  import opened WalkTheorems

  const STATIC_RESOLUTIONS := {ExactStatic, Annotated}

  /** Every edge kind except CONTAINS. */
  const CALLER_KINDS := {
    Calls, CallsEndpoint, DependsOn, ExecutesProcedure, Exposes, Implements, Imports, Inherits,
    Publishes, Reads, References, Subscribes, Tests, Writes}

  /** The statuses a manifest may pin. `impact` asks for none of them. */
  const COVERAGE_STATUSES := {"complete_for_profile", "partial", "unsupported"}
  const COVERAGE_EXPECTED := "complete"

  datatype Shortfall = DepthLimited | Truncated | MissingMembers | UnresolvedEdges | CoverageNotComplete

  datatype Report = Report(
    target: Id, closure: set<Id>, proven: set<Id>, potential: set<Id>, unresolved: set<Edge>,
    truncated: bool, incomplete: set<Shortfall>, exhaustive: bool)

  datatype ImpactAnswer =
    | LimitRejected | SelectorRejected | TargetNotFound | AmbiguousTarget(candidates: seq<Node>) | Answer(report: Report)

  /** The parameters of one closure: target, hops, kinds and budgets. */
  datatype Closure = Closure(target: Id, hops: nat, kinds: set<EdgeKind>, maxNodes: nat, maxEdges: nat) {
    function Full(): Filter { Filter(Incoming, Some(kinds), None) }
    function Static(): Filter { Filter(Incoming, Some(kinds), Some(STATIC_RESOLUTIONS)) }
    function Walk(): Query { Query([target], hops, Full(), maxNodes, maxEdges) }
    function StaticWalk(): Query { Query([target], hops, Static(), maxNodes, maxEdges) }
    function Probe(): Query { Query([target], hops + 1, Full(), maxNodes, maxEdges) }
  }

  // ---------------------------------------------------------------- the reverse walk always answers

  lemma {:induction false} ReverseBallPinned(scope: GraphSet, f: Filter, roots: set<Id>, k: nat)
    requires scope.Valid() && f.heading == Incoming && roots <= scope.nodes.Keys
    ensures Ball(scope.Edges(), f, roots, k) <= scope.nodes.Keys
  {
    if k > 0 {
      ReverseBallPinned(scope, f, roots, k - 1);
      var inner := Ball(scope.Edges(), f, roots, k - 1);
      forall b | b in Next(scope.Edges(), f, inner) ensures b in scope.nodes {
        NextIsHop(scope.Edges(), f, inner, b);
        var e, a :| a in inner && Hop(scope.Edges(), f, e, a, b);
        SourcesPinned(scope, e);
      }
    }
  }

  /** Walking backwards never meets an unpinned node, whatever the edges point at. */
  lemma {:induction false} ReverseWalkAnswers(scope: GraphSet, q: Query)
    requires scope.Valid() && UniqueEdgeIds(scope.Edges()) && q.filter.heading == Incoming
    requires Elements(q.roots) <= scope.nodes.Keys
    ensures WalkOf(scope, q).Success?
  {
    ReverseBallPinned(scope, q.filter, Elements(q.roots), q.depth);
    ClosedScopeIsAnswered(scope, q);
  }

  // ---------------------------------------------------------------- the three walks compared

  /** Dropping edges cannot overrun a budget: a stricter filter is untruncated whenever the looser one is. */
  lemma {:induction false} StricterWalkFits(scope: GraphSet, q: Query, g: Filter)
    requires scope.Valid() && UniqueEdgeIds(scope.Edges()) && Stricter(g, q.filter)
    requires WalkOf(scope, q).Success? && !WalkOf(scope, q).value.Truncated()
    requires WalkOf(scope, q.(filter := g)).Success?
    ensures var w, v := WalkOf(scope, q).value, WalkOf(scope, q.(filter := g)).value;
      && !v.Truncated() && v.nodes <= w.nodes
      && v.nodes == Ball(scope.Edges(), g, Elements(q.roots), q.depth)
  {
    var roots := Elements(q.roots);
    WalkIsExact(scope, q);
    WalkIsExact(scope, q.(filter := g));
    StricterBall(scope.Edges(), g, q.filter, roots, q.depth);
    SubsetSize(Ball(scope.Edges(), g, roots, q.depth), Ball(scope.Edges(), q.filter, roots, q.depth));
    SubsetSize(Examined(scope.Edges(), g, roots, q.depth), Examined(scope.Edges(), q.filter, roots, q.depth));
  }

  /**
    What the depth probe's node count is worth. Where the probe itself fits its budgets, it grows
    exactly when the closure goes on. Where the closure already fills the node budget the probe
    cannot grow at all, so the comparison is blind; and a probe cut by nodes means there is more.
  */
  lemma {:induction false} ProbeVerdict(scope: GraphSet, c: Closure)
    requires scope.Valid() && UniqueEdgeIds(scope.Edges())
    requires WalkOf(scope, c.Walk()).Success? && !WalkOf(scope, c.Walk()).value.Truncated()
    requires WalkOf(scope, c.Probe()).Success?
    ensures var w, p := WalkOf(scope, c.Walk()).value, WalkOf(scope, c.Probe()).value;
      var goesOn := Ball(scope.Edges(), c.Full(), {c.target}, c.hops + 1) != Ball(scope.Edges(), c.Full(), {c.target}, c.hops);
      && (!p.Truncated() ==> (|p.nodes| > |w.nodes| <==> goesOn))
      && (p.nodesCut ==> goesOn)
      && (|w.nodes| == c.maxNodes ==> |p.nodes| <= |w.nodes|)
      && (|w.nodes| == c.maxNodes && goesOn ==> p.Truncated())
  {
    var edges, f := scope.Edges(), c.Full();
    assert Elements([c.target]) == {c.target};
    WalkIsExact(scope, c.Walk());
    WalkIsExact(scope, c.Probe());
    BallGrows(edges, f, {c.target}, c.hops, c.hops + 1);
    SubsetSize(Ball(edges, f, {c.target}, c.hops), Ball(edges, f, {c.target}, c.hops + 1));
  }

  /** Untruncated, and no growth in an untruncated probe: the closure is all of reverse reachability. */
  lemma {:induction false} ClosureIsEverything(scope: GraphSet, c: Closure, n: Id)
    requires scope.Valid() && UniqueEdgeIds(scope.Edges())
    requires WalkOf(scope, c.Walk()).Success? && !WalkOf(scope, c.Walk()).value.Truncated()
    requires WalkOf(scope, c.Probe()).Success? && !WalkOf(scope, c.Probe()).value.Truncated()
    requires |WalkOf(scope, c.Probe()).value.nodes| <= |WalkOf(scope, c.Walk()).value.nodes|
    ensures n in WalkOf(scope, c.Walk()).value.nodes <==> Connected(scope.Edges(), c.Full(), c.target, n)
  {
    assert Elements([c.target]) == {c.target};
    ProbeVerdict(scope, c);
    WalkIsExact(scope, c.Walk());
    SettledBallIsEverything(scope.Edges(), c.Full(), c.target, c.hops, n);
  }

  /** If also no unresolved edge names a closure node, no repair changes that set. */
  lemma {:induction false} ClosureSurvivesRepair(fold: Fold, scope: GraphSet, c: Closure, repaired: seq<Edge>, n: Id)
    requires scope.Valid() && Repaired(fold, scope.nodes, scope.Edges(), repaired)
    requires forall b :: Connected(scope.Edges(), c.Full(), c.target, b) ==> b in scope.nodes
    requires forall e, b :: e in scope.Edges() && Connected(scope.Edges(), c.Full(), c.target, b) && b in scope.nodes ==>
      !NamesNode(fold, e, scope.nodes[b])
    ensures Connected(repaired, c.Full(), c.target, n) <==> Connected(scope.Edges(), c.Full(), c.target, n)
  {
    var edges, f := scope.Edges(), c.Full();
    var inside := set b | b in scope.nodes && Connected(edges, f, c.target, b);
    if stops, via :| TrailBetween(edges, f, c.target, n, stops, via) {
      RepairKeepsTrails(fold, scope.nodes, edges, repaired, f, stops, via);
      assert TrailBetween(repaired, f, c.target, n, stops, via);
    }
    if stops, via :| TrailBetween(repaired, f, c.target, n, stops, via) {
      assert c.target in inside by { assert TrailBetween(edges, f, c.target, c.target, [c.target], []); }
      assert ClosedUnderHops(edges, f, inside) by { ReachableIsClosed(edges, f, c.target); }
      RepairKeepsClosed(fold, scope.nodes, edges, repaired, f, inside);
      TrailStaysInside(repaired, f, inside, stops, via);
    }
  }

  lemma {:induction false} ReachableIsClosed(edges: seq<Edge>, f: Filter, root: Id)
    ensures forall e, a, b :: Connected(edges, f, root, a) && Hop(edges, f, e, a, b) ==> Connected(edges, f, root, b)
  {
    forall e, a, b | Connected(edges, f, root, a) && Hop(edges, f, e, a, b) ensures Connected(edges, f, root, b) {
      var stops, via :| TrailBetween(edges, f, root, a, stops, via);
      assert TrailBetween(edges, f, root, b, stops + [b], via + [e]);
    }
  }

  // ---------------------------------------------------------------- the operation

  function NamedBy(fold: Fold, scope: GraphSet, ids: set<Id>): set<Edge> {
    set e | e in scope.Edges() && exists id :: id in ids && id in scope.nodes && NamesNode(fold, e, scope.nodes[id])
  }

  ghost predicate Answered(scope: GraphSet, c: Closure) {
    WalkOf(scope, c.Walk()).Success? && WalkOf(scope, c.StaticWalk()).Success? && WalkOf(scope, c.Probe()).Success?
  }

  /** The depth probe: one hop further must find no more nodes, and at the cap nothing can be shown. */
  ghost predicate DepthLimits(scope: GraphSet, c: Closure)
    requires Answered(scope, c)
  {
    c.hops >= MAX_DEPTH || |WalkOf(scope, c.Probe()).value.nodes| > |WalkOf(scope, c.Walk()).value.nodes|
  }

  function ShortfallSet(depthLimited: bool, truncated: bool, missing: bool, unresolved: bool, partial: bool): set<Shortfall> {
    (if depthLimited then {DepthLimited} else {}) + (if truncated then {Truncated} else {}) +
    (if missing then {MissingMembers} else {}) + (if unresolved then {UnresolvedEdges} else {}) +
    (if partial then {CoverageNotComplete} else {})
  }

  predicate PartialCoverage(graphs: seq<Graph>) {
    exists g :: g in graphs && g.coverage != COVERAGE_EXPECTED
  }

  ghost function Shortfalls(fold: Fold, scope: GraphSet, c: Closure): set<Shortfall>
    requires Answered(scope, c)
  {
    var w := WalkOf(scope, c.Walk()).value;
    ShortfallSet(
      DepthLimits(scope, c), w.Truncated(), scope.missing != {},
      w.unresolved + NamedBy(fold, scope, w.nodes + {c.target}) != {}, PartialCoverage(scope.graphs))
  }

  /** Appends the reasons in the order they are tested. */
  method CollectShortfalls(depthLimited: bool, truncated: bool, missing: bool, unresolved: bool, partial: bool)
    returns (incomplete: set<Shortfall>)
    ensures incomplete == ShortfallSet(depthLimited, truncated, missing, unresolved, partial)
    ensures incomplete == {} <==> !depthLimited && !truncated && !missing && !unresolved && !partial
  {
    incomplete := {};
    if depthLimited { incomplete := incomplete + {DepthLimited}; }
    if truncated { incomplete := incomplete + {Truncated}; }
    if missing { incomplete := incomplete + {MissingMembers}; }
    if unresolved { incomplete := incomplete + {UnresolvedEdges}; }
    if partial { incomplete := incomplete + {CoverageNotComplete}; }
  }

  ghost function ReportOf(fold: Fold, scope: GraphSet, c: Closure): Report
    requires Answered(scope, c)
  {
    var w, v := WalkOf(scope, c.Walk()).value, WalkOf(scope, c.StaticWalk()).value;
    var closure, proven := w.nodes - {c.target}, v.nodes - {c.target};
    Report(
      c.target, closure, proven, closure - proven, w.unresolved + NamedBy(fold, scope, w.nodes + {c.target}),
      w.Truncated(), Shortfalls(fold, scope, c), Shortfalls(fold, scope, c) == {})
  }

  /** A reverse closure always gets its three walks. */
  lemma {:induction false} AlwaysAnswered(scope: GraphSet, c: Closure)
    requires scope.Valid() && UniqueEdgeIds(scope.Edges()) && c.target in scope.nodes
    ensures Answered(scope, c)
  {
    assert Elements([c.target]) == {c.target};
    ReverseWalkAnswers(scope, c.Walk());
    ReverseWalkAnswers(scope, c.StaticWalk());
    ReverseWalkAnswers(scope, c.Probe());
  }

  /** The closure once the target is known. */
  method Close(scope: GraphSet, fold: Fold, c: Closure) returns (r: Report)
    requires scope.Valid() && UniqueEdgeIds(scope.Edges()) && c.target in scope.nodes
    ensures Answered(scope, c) && r == ReportOf(fold, scope, c)
  {
    AlwaysAnswered(scope, c);
    var walk := BoundedWalk(scope, c.Walk());
    var staticWalk := BoundedWalk(scope, c.StaticWalk());
    var w, v := walk.value, staticWalk.value;
    var depthLimited := true;
    if c.hops < MAX_DEPTH {
      var deeper := BoundedWalk(scope, c.Probe());
      depthLimited := |deeper.value.nodes| > |w.nodes|;
    }
    assert depthLimited == DepthLimits(scope, c);
    var closure, proven := w.nodes - {c.target}, v.nodes - {c.target};
    var potential := closure - proven;
    var named := NamedUnresolved(scope, fold, c, w.nodes + {c.target});
    var unresolved := w.unresolved + named;
    var incomplete := CollectShortfalls(
      depthLimited, w.Truncated(), scope.missing != {}, unresolved != {}, PartialCoverage(scope.graphs));
    r := Report(c.target, closure, proven, potential, unresolved, w.Truncated(), incomplete, incomplete == {});
  }

  /** The unresolved edges naming a node of the closure or the target, collected node by node. */
  method NamedUnresolved(scope: GraphSet, fold: Fold, c: Closure, ids: set<Id>) returns (named: set<Edge>)
    requires scope.Valid() && UniqueEdgeIds(scope.Edges()) && c.target in scope.nodes && Answered(scope, c)
    requires ids == WalkOf(scope, c.Walk()).value.nodes + {c.target}
    ensures named == NamedBy(fold, scope, ids)
  {
    assert Elements([c.target]) == {c.target};
    WalkNodesPinned(scope, c.Walk());
    var found := ReferencesToAny(scope, fold, SortedIds(ids));
    named := found.value;
  }

  /** Whatever was cut, every listed node really reaches the target that closely, and is listed once. */
  lemma {:induction false} ReportIsSound(fold: Fold, scope: GraphSet, c: Closure)
    requires scope.Valid() && UniqueEdgeIds(scope.Edges()) && Answered(scope, c)
    ensures var r := ReportOf(fold, scope, c);
      && (forall n :: n in r.closure ==> ConnectedWithin(scope.Edges(), c.Full(), c.target, n, c.hops))
      && (forall n :: n in r.proven ==> ConnectedWithin(scope.Edges(), c.Static(), c.target, n, c.hops))
      && r.proven !! r.potential && r.potential <= r.closure <= r.proven + r.potential
  {
    WalkNodesAreNear(scope, c);
  }

  /**
    Untruncated, the closure is exactly the near reverse reach of the target, `proven` is exactly
    the part reached by exact or annotated edges alone, and the two lists partition the closure.
  */
  lemma {:induction false} ReportIsExact(fold: Fold, scope: GraphSet, c: Closure)
    requires scope.Valid() && UniqueEdgeIds(scope.Edges()) && Answered(scope, c)
    requires !ReportOf(fold, scope, c).truncated
    ensures var r := ReportOf(fold, scope, c);
      && !WalkOf(scope, c.StaticWalk()).value.Truncated()
      && r.closure == r.proven + r.potential && r.proven !! r.potential
      && (forall n :: n in r.closure <==> n != c.target && ConnectedWithin(scope.Edges(), c.Full(), c.target, n, c.hops))
      && (forall n :: n in r.proven <==> n != c.target && ConnectedWithin(scope.Edges(), c.Static(), c.target, n, c.hops))
  {
    WalkNodesAreNear(scope, c);
  }

  /** Exhaustive, and the probe not cut: the closure is everything, and stays so under every repair. */
  lemma {:induction false} ExhaustiveIsEverything(fold: Fold, scope: GraphSet, c: Closure)
    requires scope.Valid() && UniqueEdgeIds(scope.Edges()) && c.target in scope.nodes && Answered(scope, c)
    requires ReportOf(fold, scope, c).exhaustive && !WalkOf(scope, c.Probe()).value.Truncated()
    ensures var everything := ReportOf(fold, scope, c).closure + {c.target};
      && (forall n :: n in everything <==> Connected(scope.Edges(), c.Full(), c.target, n))
      && (forall repaired, n :: Repaired(fold, scope.nodes, scope.Edges(), repaired) ==>
            (n in everything <==> Connected(repaired, c.Full(), c.target, n)))
  {
    var nodes := WalkOf(scope, c.Walk()).value.nodes;
    NoShortfall(fold, scope, c);
    ExhaustiveMeans(fold, scope, c);
    assert ReportOf(fold, scope, c).closure + {c.target} == nodes;
  }

  /**
    The probe is cut only where the closure has no room: with a node to spare and every edge one hop
    further within the edge budget, an exhaustive answer is right.
  */
  lemma {:induction false} ExhaustiveWithRoom(fold: Fold, scope: GraphSet, c: Closure, n: Id)
    requires scope.Valid() && UniqueEdgeIds(scope.Edges()) && c.target in scope.nodes && Answered(scope, c)
    requires ReportOf(fold, scope, c).exhaustive
    requires |ReportOf(fold, scope, c).closure| + 1 < c.maxNodes
    requires |Examined(scope.Edges(), c.Full(), {c.target}, c.hops + 1)| <= c.maxEdges
    ensures n in ReportOf(fold, scope, c).closure + {c.target} <==> Connected(scope.Edges(), c.Full(), c.target, n)
  {
    NoShortfall(fold, scope, c);
    assert Elements([c.target]) == {c.target};
    WalkIsExact(scope, c.Probe());
    var nodes := WalkOf(scope, c.Walk()).value.nodes;
    SubsetSize(nodes, ReportOf(fold, scope, c).closure + {c.target});
    assert !WalkOf(scope, c.Probe()).value.nodesCut;
    ExhaustiveIsEverything(fold, scope, c);
  }

  /** An admitted edge into the closure or the target that starts outside them. */
  ghost predicate Enters(scope: GraphSet, c: Closure, nodes: set<Id>, e: Edge) {
    e in scope.Edges() && c.Full().Admits(e) && e.Resolved() && e.target.id in nodes && e.source !in nodes
  }

  /** The closure goes on exactly when some edge enters it. */
  lemma {:induction false} GoesOnIffEntered(scope: GraphSet, c: Closure, nodes: set<Id>)
    requires nodes == Ball(scope.Edges(), c.Full(), {c.target}, c.hops)
    ensures Ball(scope.Edges(), c.Full(), {c.target}, c.hops + 1) != nodes <==> exists e :: Enters(scope, c, nodes, e)
  {
    var next := Next(scope.Edges(), c.Full(), nodes);
    if e :| Enters(scope, c, nodes, e) {
      assert Hop(scope.Edges(), c.Full(), e, e.target.id, e.source);
      NextIsHop(scope.Edges(), c.Full(), nodes, e.source);
    }
    if Ball(scope.Edges(), c.Full(), {c.target}, c.hops + 1) != nodes {
      var x :| x in next && x !in nodes;
      NextIsHop(scope.Edges(), c.Full(), nodes, x);
      var e, a :| a in nodes && Hop(scope.Edges(), c.Full(), e, a, x);
      assert Enters(scope, c, nodes, e);
    }
  }

  /**
    With the node budget full, an answer with no other shortfall always calls itself exhaustive
    below the depth cap, and it is right exactly when no admitted edge enters the closure.
  */
  lemma {:induction false} ExhaustiveWithoutRoom(fold: Fold, scope: GraphSet, c: Closure)
    requires scope.Valid() && UniqueEdgeIds(scope.Edges()) && c.target in scope.nodes && Answered(scope, c)
    requires c.hops < MAX_DEPTH && |WalkOf(scope, c.Walk()).value.nodes| == c.maxNodes
    requires ReportOf(fold, scope, c).incomplete <= {DepthLimited}
    ensures ReportOf(fold, scope, c).exhaustive
    ensures (forall n :: Connected(scope.Edges(), c.Full(), c.target, n) ==> n in ReportOf(fold, scope, c).closure + {c.target})
      <==> forall e :: !Enters(scope, c, ReportOf(fold, scope, c).closure + {c.target}, e)
  {
    var w := WalkOf(scope, c.Walk()).value;
    assert Truncated !in ReportOf(fold, scope, c).incomplete;
    assert !w.Truncated();
    ProbeVerdict(scope, c);
    assert !DepthLimits(scope, c);
    assert DepthLimited !in ReportOf(fold, scope, c).incomplete;
    ClosureIsBall(fold, scope, c);
    GoesOnIffEntered(scope, c, ReportOf(fold, scope, c).closure + {c.target});
    WholeOrGrowing(scope.Edges(), c.Full(), c.target, c.hops);
  }

  lemma {:induction false} ClosureIsBall(fold: Fold, scope: GraphSet, c: Closure)
    requires scope.Valid() && UniqueEdgeIds(scope.Edges()) && Answered(scope, c)
    requires !WalkOf(scope, c.Walk()).value.Truncated()
    ensures ReportOf(fold, scope, c).closure + {c.target} == Ball(scope.Edges(), c.Full(), {c.target}, c.hops)
  {
    WalkIsExact(scope, c.Walk());
    TargetInBall(scope.Edges(), c.Full(), c.target, c.hops);
  }

  lemma {:induction false} TargetInBall(edges: seq<Edge>, f: Filter, target: Id, hops: nat)
    ensures Elements([target]) == {target} && target in Ball(edges, f, {target}, hops)
  {
    BallGrows(edges, f, {target}, 0, hops);
  }

  /** What an empty list of shortfalls says, one by one. */
  lemma {:induction false} NoShortfall(fold: Fold, scope: GraphSet, c: Closure)
    requires Answered(scope, c) && ReportOf(fold, scope, c).exhaustive
    ensures !DepthLimits(scope, c) && !WalkOf(scope, c.Walk()).value.Truncated() && scope.missing == {}
    ensures forall g :: g in scope.graphs ==> g.coverage == COVERAGE_EXPECTED
    ensures forall e, n :: e in scope.Edges() && n in WalkOf(scope, c.Walk()).value.nodes + {c.target} && n in scope.nodes ==>
      !NamesNode(fold, e, scope.nodes[n])
  {
    var w := WalkOf(scope, c.Walk()).value;
    assert DepthLimited !in Shortfalls(fold, scope, c) && Truncated !in Shortfalls(fold, scope, c);
    assert MissingMembers !in Shortfalls(fold, scope, c) && CoverageNotComplete !in Shortfalls(fold, scope, c);
    assert UnresolvedEdges !in Shortfalls(fold, scope, c);
    forall e, n | e in scope.Edges() && n in w.nodes + {c.target} && n in scope.nodes
      ensures !NamesNode(fold, e, scope.nodes[n])
    {
      assert e !in NamedBy(fold, scope, w.nodes + {c.target});
    }
  }

  lemma {:induction false} ManifestStatusIsNotExpected(status: string)
    requires status in COVERAGE_STATUSES
    ensures status != COVERAGE_EXPECTED
  {
    assert |status| == 20 || status[0] != 'c';
  }

  /**
    No manifest can pin the one status the code asks for, so an answer over any member read from a
    manifest is never exhaustive.
  */
  lemma {:induction false} NeverExhaustiveFromManifests(fold: Fold, scope: GraphSet, c: Closure, g: Graph)
    requires Answered(scope, c) && g in scope.graphs && g.coverage in COVERAGE_STATUSES
    ensures !ReportOf(fold, scope, c).exhaustive
  {
    ManifestStatusIsNotExpected(g.coverage);
    if ReportOf(fold, scope, c).exhaustive { NoShortfall(fold, scope, c); }
  }

  lemma {:induction false} WalkNodesPinned(scope: GraphSet, q: Query)
    requires scope.Valid() && UniqueEdgeIds(scope.Edges()) && WalkOf(scope, q).Success?
    requires q.filter.heading == Incoming && Elements(q.roots) <= scope.nodes.Keys
    ensures WalkOf(scope, q).value.nodes <= scope.nodes.Keys
  {
    WalkIsExact(scope, q);
    ReverseBallPinned(scope, q.filter, Elements(q.roots), q.depth);
  }

  /** A walk's nodes in terms of trails: sound always, and exact when the walk is untruncated. */
  lemma {:induction false} WalkNodeIsNear(scope: GraphSet, q: Query, target: Id, n: Id)
    requires scope.Valid() && UniqueEdgeIds(scope.Edges()) && q.roots == [target] && WalkOf(scope, q).Success?
    ensures n in WalkOf(scope, q).value.nodes ==> ConnectedWithin(scope.Edges(), q.filter, target, n, q.depth)
    ensures !WalkOf(scope, q).value.Truncated() && ConnectedWithin(scope.Edges(), q.filter, target, n, q.depth) ==>
      n in WalkOf(scope, q).value.nodes
  {
    assert Elements([target]) == {target};
    WalkIsExact(scope, q);
    BallIsShortTrails(scope.Edges(), q.filter, target, q.depth, n);
  }

  lemma {:induction false} WalkNodesAreNear(scope: GraphSet, c: Closure)
    requires scope.Valid() && UniqueEdgeIds(scope.Edges())
    requires WalkOf(scope, c.Walk()).Success? && WalkOf(scope, c.StaticWalk()).Success?
    ensures var w, v := WalkOf(scope, c.Walk()).value, WalkOf(scope, c.StaticWalk()).value;
      && (forall n :: n in w.nodes ==> ConnectedWithin(scope.Edges(), c.Full(), c.target, n, c.hops))
      && (forall n :: n in v.nodes ==> ConnectedWithin(scope.Edges(), c.Static(), c.target, n, c.hops))
      && (!w.Truncated() ==>
            && !v.Truncated() && v.nodes <= w.nodes
            && (forall n :: ConnectedWithin(scope.Edges(), c.Full(), c.target, n, c.hops) ==> n in w.nodes)
            && (forall n :: ConnectedWithin(scope.Edges(), c.Static(), c.target, n, c.hops) ==> n in v.nodes))
  {
    var w, v := WalkOf(scope, c.Walk()).value, WalkOf(scope, c.StaticWalk()).value;
    forall n
      ensures n in w.nodes ==> ConnectedWithin(scope.Edges(), c.Full(), c.target, n, c.hops)
      ensures !w.Truncated() && ConnectedWithin(scope.Edges(), c.Full(), c.target, n, c.hops) ==> n in w.nodes
    {
      WalkNodeIsNear(scope, c.Walk(), c.target, n);
    }
    forall n
      ensures n in v.nodes ==> ConnectedWithin(scope.Edges(), c.Static(), c.target, n, c.hops)
      ensures !v.Truncated() && ConnectedWithin(scope.Edges(), c.Static(), c.target, n, c.hops) ==> n in v.nodes
    {
      WalkNodeIsNear(scope, c.StaticWalk(), c.target, n);
    }
    if !w.Truncated() {
      assert c.StaticWalk() == c.Walk().(filter := c.Static());
      StricterWalkFits(scope, c.Walk(), c.Static());
    }
  }

  lemma {:induction false} ExhaustiveMeans(fold: Fold, scope: GraphSet, c: Closure)
    requires scope.Valid() && UniqueEdgeIds(scope.Edges()) && c.target in scope.nodes
    requires WalkOf(scope, c.Walk()).Success? && !WalkOf(scope, c.Walk()).value.Truncated()
    requires WalkOf(scope, c.Probe()).Success? && !WalkOf(scope, c.Probe()).value.Truncated()
    requires |WalkOf(scope, c.Probe()).value.nodes| <= |WalkOf(scope, c.Walk()).value.nodes|
    requires forall e, n :: e in scope.Edges() && n in WalkOf(scope, c.Walk()).value.nodes + {c.target} && n in scope.nodes ==>
      !NamesNode(fold, e, scope.nodes[n])
    ensures c.target in WalkOf(scope, c.Walk()).value.nodes
    ensures forall n :: n in WalkOf(scope, c.Walk()).value.nodes <==> Connected(scope.Edges(), c.Full(), c.target, n)
    ensures forall repaired, n :: Repaired(fold, scope.nodes, scope.Edges(), repaired) ==>
      (n in WalkOf(scope, c.Walk()).value.nodes <==> Connected(repaired, c.Full(), c.target, n))
  {
    var nodes := WalkOf(scope, c.Walk()).value.nodes;
    forall n ensures n in nodes <==> Connected(scope.Edges(), c.Full(), c.target, n) {
      ClosureIsEverything(scope, c, n);
    }
    assert TrailBetween(scope.Edges(), c.Full(), c.target, c.target, [c.target], []);
    assert Elements([c.target]) == {c.target};
    WalkNodesPinned(scope, c.Walk());
    forall repaired, n | Repaired(fold, scope.nodes, scope.Edges(), repaired)
      ensures n in nodes <==> Connected(repaired, c.Full(), c.target, n)
    {
      ClosureSurvivesRepair(fold, scope, c, repaired, n);
    }
  }

  /** The closure a caller asks for, once its three bounds are in range: absent bounds are the defaults. */
  function Asked(
    target: Id, depth: Option<int>, kinds: Option<set<EdgeKind>>, maxNodes: Option<int>, maxEdges: Option<int>): Closure
    requires BoundedInt(depth, 0, MAX_DEPTH, DEFAULT_DEPTH).Some?
    requires BoundedInt(maxNodes, 1, MAX_NODES, DEFAULT_MAX_NODES).Some?
    requires BoundedInt(maxEdges, 0, MAX_EDGES, DEFAULT_MAX_EDGES).Some?
  {
    Closure(
      target, BoundedInt(depth, 0, MAX_DEPTH, DEFAULT_DEPTH).value, if kinds.None? then CALLER_KINDS else kinds.value,
      BoundedInt(maxNodes, 1, MAX_NODES, DEFAULT_MAX_NODES).value, BoundedInt(maxEdges, 0, MAX_EDGES, DEFAULT_MAX_EDGES).value)
  }

  method Impact(
    scope: GraphSet, fold: Fold, target: string, depth: Option<int>, kinds: Option<set<EdgeKind>>,
    maxNodes: Option<int>, maxEdges: Option<int>)
    returns (r: ImpactAnswer)
    requires scope.Valid() && UniqueEdgeIds(scope.Edges())
    ensures r.LimitRejected? <==>
      || BoundedInt(depth, 0, MAX_DEPTH, DEFAULT_DEPTH).None?
      || BoundedInt(maxNodes, 1, MAX_NODES, DEFAULT_MAX_NODES).None?
      || BoundedInt(maxEdges, 0, MAX_EDGES, DEFAULT_MAX_EDGES).None?
    ensures !r.LimitRejected? ==>
      match ResolveOf(fold, scope.nodes, target)
      case Rejected => r == SelectorRejected
      case NotFound => r == TargetNotFound
      case Ambiguous(candidates) => r == AmbiguousTarget(candidates)
      case Found(node) =>
        var c := Asked(node.id, depth, kinds, maxNodes, maxEdges);
        Answered(scope, c) && r == Answer(ReportOf(fold, scope, c))
  {
    var hops := BoundedInt(depth, 0, MAX_DEPTH, DEFAULT_DEPTH);
    var nodeBudget := BoundedInt(maxNodes, 1, MAX_NODES, DEFAULT_MAX_NODES);
    var edgeBudget := BoundedInt(maxEdges, 0, MAX_EDGES, DEFAULT_MAX_EDGES);
    if hops.None? || nodeBudget.None? || edgeBudget.None? { return LimitRejected; }
    var resolved := Resolve(scope, fold, target);
    match resolved {
      case Rejected => return SelectorRejected;
      case NotFound => return TargetNotFound;
      case Ambiguous(candidates) => return AmbiguousTarget(candidates);
      case Found(node) =>
        var c := Closure(
          node.id, hops.value, if kinds.None? then CALLER_KINDS else kinds.value, nodeBudget.value, edgeBudget.value);
        ResolvedIsPinned(scope, fold, target);
        var report := Close(scope, fold, c);
        r := Answer(report);
    }
  }

  lemma {:induction false} ResolvedIsPinned(scope: GraphSet, fold: Fold, selector: string)
    requires scope.Valid() && ResolveOf(fold, scope.nodes, selector).Found?
    ensures ResolveOf(fold, scope.nodes, selector).node.id in scope.nodes
  {
    ResolveMeaning(fold, scope.nodes, selector);
    var n := ResolveOf(fold, scope.nodes, selector).node;
    var id :| id in scope.nodes && scope.nodes[id] == n;
  }

  // ---------------------------------------------------------------- where the probe is blind

  /**
    A closure that fills its node budget hides what lies beyond it: `source` calls the target,
    depth 0 with one node is untruncated, the probe counts no more nodes, nothing is missing,
    unresolved or partial, so the answer calls itself exhaustive without listing `source`.
  */
  lemma {:induction false} ProbeBlindSpot(fold: Fold) returns (scope: GraphSet, c: Closure, source: Id)
    ensures scope.Valid() && UniqueEdgeIds(scope.Edges()) && c.target in scope.nodes && Answered(scope, c)
    ensures ReportOf(fold, scope, c).exhaustive
    ensures source !in ReportOf(fold, scope, c).closure + {c.target}
    ensures Connected(scope.Edges(), c.Full(), c.target, source)
  {
    var t, s := Digest("t"), Digest("s");
    assert t != s by { assert t.text[0] != s.text[0]; }
    var e := Edge(Digest("e"), s, Calls, ExactStatic, Pinned(t));
    scope := OneCall(t, s, e);
    source, c := s, Closure(t, 0, CALLER_KINDS, 1, 0);
    AlwaysAnswered(scope, c);
    NoDepthNoTruncation(scope, c);
    ProbeVerdict(scope, c);
    NothingElseIsShort(fold, scope, c);
    CallIsTrail(scope.Edges(), e, t, s, c.Full());
  }

  lemma {:induction false} CallIsTrail(edges: seq<Edge>, e: Edge, t: Id, s: Id, f: Filter)
    requires e in edges && e.source == s && e.target == Pinned(t) && f.Admits(e) && f.heading == Incoming
    ensures Connected(edges, f, t, s)
  {
    assert Hop(edges, f, e, t, s);
    assert TrailBetween(edges, f, t, s, [t, s], [e]);
  }

  /** With every edge resolved and every member complete, only the probe and the budgets can object. */
  lemma {:induction false} NothingElseIsShort(fold: Fold, scope: GraphSet, c: Closure)
    requires scope.Valid() && UniqueEdgeIds(scope.Edges()) && Answered(scope, c)
    requires scope.missing == {} && forall g :: g in scope.graphs ==> g.coverage == COVERAGE_EXPECTED
    requires forall e :: e in scope.Edges() ==> e.Resolved()
    requires !DepthLimits(scope, c) && !WalkOf(scope, c.Walk()).value.Truncated()
    ensures ReportOf(fold, scope, c).exhaustive
  {
    WalkIsExact(scope, c.Walk());
    var w := WalkOf(scope, c.Walk()).value;
    assert NamedBy(fold, scope, w.nodes + {c.target}) == {};
    assert w.unresolved == {};
  }

  /** Two nodes and one resolved call between them. */
  lemma {:induction false} OneCall(t: Id, s: Id, e: Edge) returns (scope: GraphSet)
    requires t != s && e == Edge(e.id, s, Calls, ExactStatic, Pinned(t))
    ensures scope.Valid() && scope.Edges() == [e] && t in scope.nodes && scope.missing == {}
    ensures forall g :: g in scope.graphs ==> g.coverage == COVERAGE_EXPECTED
  {
    var callee, caller := Node(t, "p", "callee", "p.callee"), Node(s, "p", "caller", "p.caller");
    var g := Graph("p", [callee, caller], [e], COVERAGE_EXPECTED);
    scope := GraphSet([g], {}, map[t := callee, s := caller], map[s := [e]], map[t := [e]]);
    assert GraphValid(g) by { assert g.nodes[1].id == s; }
    assert [g][..0] == [];
    assert AllNodes([]) == [] && AllEdges([]) == [];
    assert AllNodes([g]) == [] + g.nodes && AllEdges([g]) == [] + g.edges;
  }

  /** A walk of depth 0 examines no edge and, with room for one node, is never truncated. */
  lemma {:induction false} NoDepthNoTruncation(scope: GraphSet, c: Closure)
    requires scope.Valid() && UniqueEdgeIds(scope.Edges()) && c.target in scope.nodes && c.hops == 0 && c.maxNodes == 1
    ensures WalkOf(scope, c.Walk()).Success? && WalkOf(scope, c.Probe()).Success?
    ensures !WalkOf(scope, c.Walk()).value.Truncated() && WalkOf(scope, c.Walk()).value.nodes == {c.target}
  {
    assert Elements([c.target]) == {c.target};
    ReverseWalkAnswers(scope, c.Walk());
    ReverseWalkAnswers(scope, c.Probe());
    WalkIsExact(scope, c.Walk());
  }
}
