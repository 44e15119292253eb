/** `path`: selectors in, a shortest path or an explicit verdict out. */
module PathQuery {
  import opened Ordering
  import opened Wrappers
  import opened GraphModel
  import opened Incidence
  import opened Traversal
  import opened Selectors
  import opened PathSearch
  import opened PathFinding

  datatype Reason = BudgetExhausted | MissingMembers | UnresolvedEdges | DepthLimited

  datatype PathAnswer =
    | LimitRejected
    | SelectorRejected
    | TargetNotFound
    | AmbiguousTarget(candidates: seq<Node>)
    | UnpinnedNode(id: Id)
    | Answer(
        task: Task, found: bool, nodes: seq<Id>, edges: seq<Edge>, unresolved: set<Edge>,
        visited: nat, depthReached: nat, budgetExhausted: bool, frontier: seq<Id>,
        incomplete: set<Reason>, provenAbsent: bool)

  /** An unresolved edge the verdict must worry about: it leaves, or names, a reachable node. */
  ghost predicate Loose(fold: Fold, scope: GraphSet, f: Filter, start: Id, e: Edge) {
    && e in scope.Edges() && !e.Resolved()
    && ((f.Admits(e) && f.heading != Incoming && Connected(scope.Edges(), f, start, e.source))
        || exists id :: id in scope.nodes && Connected(scope.Edges(), f, start, id) && NamesNode(fold, e, scope.nodes[id]))
  }

  /** No trail of any length, now or after any naming-consistent repair of the unresolved edges. */
  ghost predicate AbsentForGood(fold: Fold, scope: GraphSet, f: Filter, start: Id, goal: Id) {
    && !Connected(scope.Edges(), f, start, goal)
    && forall repaired :: Repaired(fold, scope.nodes, scope.Edges(), repaired) ==> !Connected(repaired, f, start, goal)
  }

  /** The relevant unresolved edges are exactly the loose ones, once everything was seen. */
  lemma {:induction false} RelevantIsLoose(fold: Fold, scope: GraphSet, task: Task, r: Finding, named: set<Edge>, e: Edge)
    requires SawEverything(scope.Edges(), task, r)
    requires forall d :: d in r.unresolved ==> Open(scope.Edges(), task.filter, r.visited, d)
    requires forall d :: d in named <==>
      d in scope.Edges() && exists id :: id in r.visited && id in scope.nodes && NamesNode(fold, d, scope.nodes[id])
    ensures e in named + r.unresolved <==> Loose(fold, scope, task.filter, task.start, e)
  {
    if e in named {
      var id :| id in r.visited && id in scope.nodes && NamesNode(fold, e, scope.nodes[id]);
      assert Connected(scope.Edges(), task.filter, task.start, id);
    }
    if Loose(fold, scope, task.filter, task.start, e) {
      if task.filter.Admits(e) && task.filter.heading != Incoming && Connected(scope.Edges(), task.filter, task.start, e.source) {
        assert e.source in r.visited;
      } else {
        var id :| id in scope.nodes && Connected(scope.Edges(), task.filter, task.start, id) && NamesNode(fold, e, scope.nodes[id]);
        assert id in r.visited;
      }
    }
  }

  /** With no loose edge the absence survives every repair. */
  lemma {:induction false} NothingLooseIsAbsence(fold: Fold, scope: GraphSet, task: Task, r: Finding)
    requires SawEverything(scope.Edges(), task, r) && task.filter.resolutions.None?
    requires !Connected(scope.Edges(), task.filter, task.start, task.goal) && task.start in r.visited
    requires forall e :: !Loose(fold, scope, task.filter, task.start, e)
    ensures AbsentForGood(fold, scope, task.filter, task.start, task.goal)
  {
    var inside := Elements(r.visited);
    assert NothingDangling(fold, scope.nodes, scope.Edges(), task.filter, inside) by {
      forall e | e in scope.Edges() && !e.Resolved()
        ensures task.filter.heading != Incoming && task.filter.Admits(e) ==> e.source !in inside
        ensures forall n :: n in inside && n in scope.nodes ==> !NamesNode(fold, e, scope.nodes[n])
      {
        assert !Loose(fold, scope, task.filter, task.start, e);
      }
    }
    forall repaired | Repaired(fold, scope.nodes, scope.Edges(), repaired)
      ensures !Connected(repaired, task.filter, task.start, task.goal)
    {
      RepairKeepsClosed(fold, scope.nodes, scope.Edges(), repaired, task.filter, inside);
      if stops, via :| TrailBetween(repaired, task.filter, task.start, task.goal, stops, via) {
        TrailStaysInside(repaired, task.filter, inside, stops, via);
      }
    }
  }

  /** Budgets and depth that the reachable part of the graph cannot run out of. */
  ghost predicate Ample(edges: seq<Edge>, task: Task) {
    var f, root := task.filter, {task.start};
    && task.hops > 0 && Ball(edges, f, root, task.hops) == Ball(edges, f, root, task.hops - 1)
    && |Ball(edges, f, root, task.hops)| < task.nodeBudget
    && |Examined(edges, f, root, task.hops)| <= task.edgeBudget
  }

  /** Everything an answer to `task` says about the whole graph. */
  ghost predicate AnswerSays(fold: Fold, scope: GraphSet, task: Task, r: PathAnswer)
    requires r.Answer?
  {
    var edges := scope.Edges();
    && r.task == task
    && (r.found ==>
          && !r.provenAbsent && r.incomplete == {}
          && TrailBetween(edges, task.filter, task.start, task.goal, r.nodes, r.edges)
          && Distinct(r.nodes) && |r.edges| <= task.hops
          && forall stops, via :: TrailBetween(edges, task.filter, task.start, task.goal, stops, via) ==> |r.edges| <= |via|)
    && (!r.found && !r.budgetExhausted ==> !ConnectedWithin(edges, task.filter, task.start, task.goal, task.hops))
    && (r.provenAbsent ==> AbsentForGood(fold, scope, task.filter, task.start, task.goal))
    && (!r.found ==>
          (r.provenAbsent <==>
            && !r.budgetExhausted && scope.missing == {} && r.frontier == []
            && forall e :: !Loose(fold, scope, task.filter, task.start, e)))
    && (Ample(edges, task) ==>
          && (r.found <==> Connected(edges, task.filter, task.start, task.goal))
          && (r.provenAbsent <==>
                && !Connected(edges, task.filter, task.start, task.goal)
                && scope.missing == {} && forall e :: !Loose(fold, scope, task.filter, task.start, e)))
    && (r.budgetExhausted ==> HonestCut(edges, task))
    && (!r.found && !r.budgetExhausted && r.frontier != [] ==> StillGrowing(edges, task))
  }

  /** The answer once both ends are known. */
  method Search(scope: GraphSet, fold: Fold, task: Task) returns (r: PathAnswer)
    requires scope.Valid() && UniqueEdgeIds(scope.Edges()) && task.filter.resolutions.None?
    ensures r.Answer? || r.UnpinnedNode?
    ensures r.Answer? ==> AnswerSays(fold, scope, task, r)
    ensures r.UnpinnedNode? ==> r.id !in scope.nodes && Connected(scope.Edges(), task.filter, task.start, r.id)
  {
    var finding := FindPath(scope, task);
    if finding.found {
      for i := 0 to |finding.stops|
        invariant forall id :: id in finding.stops[..i] ==> id in scope.nodes
      {
        if finding.stops[i] !in scope.nodes {
          TrailReaches(scope.Edges(), task.filter, finding.stops, finding.via, i);
          return UnpinnedNode(finding.stops[i]);
        }
        PrefixSnoc(finding.stops, i);
      }
      return Answer(
        task, true, finding.stops, finding.via, finding.unresolved, |finding.visited|, |finding.via|, false, [], {}, false);
    }
    var named := ReferencesToAny(scope, fold, finding.visited);
    if named.Failure? { return UnpinnedNode(named.error); }
    var relevant := named.value + finding.unresolved;
    var depthLimited := finding.frontier != [] && finding.depthReached >= task.hops && !finding.exhausted;
    var incomplete: set<Reason> := {};
    if finding.exhausted { incomplete := incomplete + {BudgetExhausted}; }
    if scope.missing != {} { incomplete := incomplete + {MissingMembers}; }
    if relevant != {} { incomplete := incomplete + {UnresolvedEdges}; }
    if depthLimited { incomplete := incomplete + {DepthLimited}; }
    r := Answer(
      task, false, [], [], relevant, |finding.visited|, finding.depthReached, finding.exhausted,
      finding.frontier, incomplete, incomplete == {});
    if !finding.exhausted && finding.frontier == [] {
      forall e ensures e in relevant <==> Loose(fold, scope, task.filter, task.start, e) {
        RelevantIsLoose(fold, scope, task, finding, named.value, e);
      }
      if relevant == {} { NothingLooseIsAbsence(fold, scope, task, finding); }
    }
  }

  lemma {:induction false} TrailReaches(edges: seq<Edge>, f: Filter, stops: seq<Id>, via: seq<Edge>, i: nat)
    requires Trail(edges, f, stops, via) && i < |stops|
    ensures Connected(edges, f, stops[0], stops[i])
  {
    assert TrailBetween(edges, f, stops[0], stops[i], stops[..i + 1], via[..i]);
  }

  /** The search a caller asks for, once its three bounds are in range: absent bounds are the defaults. */
  function Asked(
    start: Id, goal: Id, depth: Option<int>, heading: Option<Heading>, kinds: set<EdgeKind>, maxNodes: Option<int>, maxEdges: Option<int>): Task
    requires BoundedInt(depth, 0, MAX_DEPTH, DEFAULT_DEPTH).Some?
    requires BoundedInt(maxNodes, 1, MAX_NODES, DEFAULT_MAX_NODES).Some?
    requires BoundedInt(maxEdges, 0, MAX_EDGES, DEFAULT_MAX_EDGES).Some?
  {
    Task(start, goal, Filter(if heading.None? then Both else heading.value, if kinds == {} then None else Some(kinds), None),
         BoundedInt(depth, 0, MAX_DEPTH, DEFAULT_DEPTH).value, BoundedInt(maxNodes, 1, MAX_NODES, DEFAULT_MAX_NODES).value,
         BoundedInt(maxEdges, 0, MAX_EDGES, DEFAULT_MAX_EDGES).value)
  }

  method Path(
    scope: GraphSet, fold: Fold, target: string, targetTo: string, depth: Option<int>, heading: Option<Heading>,
    kinds: set<EdgeKind>, maxNodes: Option<int>, maxEdges: Option<int>)
    returns (r: PathAnswer)
    requires scope.Valid() && UniqueEdgeIds(scope.Edges())
    ensures r.LimitRejected? <==>
      || BoundedInt(depth, 0, MAX_DEPTH, DEFAULT_DEPTH).None?
      || BoundedInt(maxNodes, 1, MAX_NODES, DEFAULT_MAX_NODES).None?
      || BoundedInt(maxEdges, 0, MAX_EDGES, DEFAULT_MAX_EDGES).None?
    ensures !r.LimitRejected? ==>
      var start, goal := ResolveOf(fold, scope.nodes, target), ResolveOf(fold, scope.nodes, targetTo);
      if !start.Found? then r == Refusal(start)
      else if !goal.Found? then r == Refusal(goal)
      else
        var task := Asked(start.node.id, goal.node.id, depth, heading, kinds, maxNodes, maxEdges);
        && (r.Answer? || r.UnpinnedNode?)
        && (r.Answer? ==> AnswerSays(fold, scope, task, r))
        && (r.UnpinnedNode? ==> r.id !in scope.nodes && Connected(scope.Edges(), task.filter, task.start, r.id))
  {
    if BoundedInt(depth, 0, MAX_DEPTH, DEFAULT_DEPTH).None?
      || BoundedInt(maxNodes, 1, MAX_NODES, DEFAULT_MAX_NODES).None?
      || BoundedInt(maxEdges, 0, MAX_EDGES, DEFAULT_MAX_EDGES).None?
    {
      return LimitRejected;
    }
    var start := End(scope, fold, target);
    if start.Failure? { return start.error; }
    var goal := End(scope, fold, targetTo);
    if goal.Failure? { return goal.error; }
    r := Search(scope, fold, Asked(start.value.id, goal.value.id, depth, heading, kinds, maxNodes, maxEdges));
  }

  /** How a selector that found no single node is refused. */
  function Refusal(resolved: Resolved): PathAnswer
    requires !resolved.Found?
  {
    match resolved
    case Rejected => SelectorRejected
    case NotFound => TargetNotFound
    case Ambiguous(candidates) => AmbiguousTarget(candidates)
  }

  /** One end of the path, or the refusal its selector earns. */
  method End(scope: GraphSet, fold: Fold, selector: string) returns (r: Result<Node, PathAnswer>)
    ensures r.Success? <==> ResolveOf(fold, scope.nodes, selector).Found?
    ensures r.Success? ==> r.value == ResolveOf(fold, scope.nodes, selector).node
    ensures r.Failure? ==> r.error == Refusal(ResolveOf(fold, scope.nodes, selector)) && !r.error.LimitRejected?
  {
    var resolved := Resolve(scope, fold, selector);
    match resolved {
      case Rejected => r := Failure(SelectorRejected);
      case NotFound => r := Failure(TargetNotFound);
      case Ambiguous(candidates) => r := Failure(AmbiguousTarget(candidates));
      case Found(n) => r := Success(n);
    }
  }
}
