/** The levelled search run to its end: the path it finds, or how far it proved there is none. */
module PathFinding {
  import opened Ordering
  import opened Wrappers
  import opened GraphModel
  import opened Incidence
  import opened Traversal
  import opened PathSearch

  // ---------------------------------------------------------------- what the invariant implies

  /** Every short trail from the start already ends inside the tree, at most that deep. */
  lemma {:induction false} ShortTrailInside(
    edges: seq<Edge>, task: Task, s: Search, depth: Depths, level: nat, pending: set<Id>, stops: seq<Id>, via: seq<Edge>)
    requires Scanning(edges, task, s, depth, level, pending) && |via| + 1 <= level
    requires Trail(edges, task.filter, stops, via) && stops[0] == task.start
    ensures stops[|via|] in depth && depth[stops[|via|]] <= |via|
  {
    if via != [] {
      var k := |via| - 1;
      ShortTrailInside(edges, task, s, depth, level, pending, stops[..k + 1], via[..k]);
      var n, e := stops[k], via[k];
      assert Hop(edges, task.filter, e, n, stops[k + 1]);
      HopEnds(edges, task.filter, e, n, stops[k + 1]);
      assert Finished(edges, task.filter, s, depth, n);
      assert Settled(s, depth, task.filter, n, e);
    }
  }

  /** The goal, once found at a level, is no nearer than that level. */
  lemma {:induction false} FoundIsShortest(
    edges: seq<Edge>, task: Task, s: Search, depth: Depths, level: nat, pending: set<Id>, stops: seq<Id>, via: seq<Edge>)
    requires Scanning(edges, task, s, depth, level, pending) && s.found
    requires TrailBetween(edges, task.filter, task.start, task.goal, stops, via)
    ensures |via| >= level
  {
    if |via| < level {
      ShortTrailInside(edges, task, s, depth, level, pending, stops, via);
    }
  }

  /** With nothing pending and nothing on the scanned level, the tree is closed under hops. */
  lemma {:induction false} NothingPendingIsClosed(edges: seq<Edge>, task: Task, s: Search, depth: Depths, level: nat)
    requires Scanning(edges, task, s, depth, level, {}) && s.next == [] && !s.found
    ensures ClosedUnderHops(edges, task.filter, depth.Keys)
  {
    forall e, a, b | a in depth.Keys && Hop(edges, task.filter, e, a, b) ensures b in depth.Keys {
      HopEnds(edges, task.filter, e, a, b);
      assert depth[a] < level;
      assert Finished(edges, task.filter, s, depth, a);
      assert Settled(s, depth, task.filter, a, e);
    }
  }

  /** Every node of the tree is reached by a trail as long as it is deep. */
  lemma {:induction false} TreeTrail(edges: seq<Edge>, f: Filter, start: Id, parent: Parents, depth: Depths, n: Id)
    returns (stops: seq<Id>, via: seq<Edge>)
    requires Tree(edges, f, start, parent, depth) && n in depth
    ensures TrailBetween(edges, f, start, n, stops, via) && |via| == depth[n]
    decreases depth[n]
  {
    if n == start {
      stops, via := [n], [];
    } else {
      assert Hangs(edges, f, parent, depth, n);
      var link := parent[n].value;
      stops, via := TreeTrail(edges, f, start, parent, depth, link.previous);
      stops, via := stops + [n], via + [link.edge];
    }
  }

  /** A pending node lies in the ball one hop smaller than the scanned level, so its edges are examined. */
  lemma {:induction false} PendingIsNear(edges: seq<Edge>, task: Task, s: Search, depth: Depths, level: nat, pending: set<Id>, n: Id, e: Edge)
    requires Scanning(edges, task, s, depth, level, pending) && n in pending
    requires e in edges && task.filter.Admits(e) && Touches(e, n, task.filter.heading)
    ensures e in Examined(edges, task.filter, {task.start}, level)
  {
    var stops, via := TreeTrail(edges, task.filter, task.start, s.parent, depth, n);
    TrailEndsInBall(edges, task.filter, {task.start}, stops, via);
    AroundIsTouching(edges, task.filter, Ball(edges, task.filter, {task.start}, level - 1), e);
  }

  /** Between levels: what was found one level deeper becomes the nodes still to be expanded. */
  lemma {:induction false} NextLevel(edges: seq<Edge>, task: Task, s: Search, depth: Depths, level: nat)
    requires Scanning(edges, task, s, depth, level, {}) && !s.found
    ensures Scanning(edges, task, s.(next := []), depth, level + 1, Elements(s.next))
  {
    var t := s.(next := []);
    forall n | n in depth && depth[n] < level + 1 && n !in Elements(s.next)
      ensures Finished(edges, task.filter, t, depth, n)
    {
      FinishedStays(edges, task.filter, s, depth, t, depth, n);
    }
  }

  // ---------------------------------------------------------------- the loops

  ghost predicate AllSettled(s: Search, depth: Depths, f: Filter, n: Id, part: seq<Edge>)
    requires n in depth
  {
    forall e :: e in part ==> Settled(s, depth, f, n, e)
  }

  /** One more step settles one more edge and unsettles none. */
  lemma {:induction false} StepSettles(
    edges: seq<Edge>, task: Task, s: Search, depth: Depths, level: nat, pending: set<Id>, n: Id, part: seq<Edge>, e: Edge)
    returns (deeper: Depths)
    requires Scanning(edges, task, s, depth, level, pending) && !s.Stopped() && n in pending && UniqueEdgeIds(edges)
    requires e in edges && task.filter.Admits(e) && Touches(e, n, task.filter.heading)
    requires n in depth && AllSettled(s, depth, task.filter, n, part)
    ensures n in deeper && Scanning(edges, task, ScanEdge(s, n, e, task), deeper, level, pending)
    ensures ScanEdge(s, n, e, task).Stopped() || AllSettled(ScanEdge(s, n, e, task), deeper, task.filter, n, part + [e])
  {
    deeper := StepKeeps(edges, task, s, depth, level, pending, n, e);
    var t := ScanEdge(s, n, e, task);
    if !t.Stopped() {
      forall d | d in part + [e] ensures Settled(t, deeper, task.filter, n, d) {
        if d in part { assert Settled(s, depth, task.filter, n, d); }
      }
    }
  }

  lemma {:induction false} AllSettledIsFinished(edges: seq<Edge>, f: Filter, s: Search, depth: Depths, n: Id, part: seq<Edge>)
    requires n in depth && ServesAt(edges, f, n, part) && AllSettled(s, depth, f, n, part)
    ensures Finished(edges, f, s, depth, n)
  {
  }

  method ScanNode(
    task: Task, s0: Search, n: Id, part: seq<Edge>, ghost edges: seq<Edge>, ghost depth0: Depths, ghost level: nat,
    ghost pending: set<Id>, ghost around: set<Edge>)
    returns (s: Search, ghost depth: Depths)
    requires ServesAt(edges, task.filter, n, part) && UniqueEdgeIds(edges)
    requires Counted(task, s0, around) && forall e :: e in part ==> e in around
    ensures Counted(task, s, around)
    requires Scanning(edges, task, s0, depth0, level, pending) && !s0.Stopped() && n in pending
    ensures Scanning(edges, task, s, depth, level, pending) && n in depth
    ensures s.Stopped() || Finished(edges, task.filter, s, depth, n)
  {
    s, depth := s0, depth0;
    for i := 0 to |part|
      invariant Scanning(edges, task, s, depth, level, pending) && !s.Stopped() && n in depth
      invariant AllSettled(s, depth, task.filter, n, part[..i])
      invariant Counted(task, s, around)
    {
      StepCounts(task, s, around, n, part[i]);
      ghost var deeper := StepSettles(edges, task, s, depth, level, pending, n, part[..i], part[i]);
      PrefixSnoc(part, i);
      s, depth := ScanEdge(s, n, part[i], task), deeper;
      if s.Stopped() { return; }
    }
    assert part[..|part|] == part;
    AllSettledIsFinished(edges, task.filter, s, depth, n, part);
  }

  /** A finished node need no longer be pending. */
  lemma {:induction false} DropPending(
    edges: seq<Edge>, task: Task, s: Search, depth: Depths, level: nat, pending: set<Id>, n: Id, fewer: set<Id>)
    requires Scanning(edges, task, s, depth, level, pending)
    requires n in depth && Finished(edges, task.filter, s, depth, n)
    requires fewer <= pending <= fewer + {n}
    ensures Scanning(edges, task, s, depth, level, fewer)
  {
  }

  method ScanLevel(
    scope: GraphSet, task: Task, s0: Search, current: seq<Id>, ghost edges: seq<Edge>, ghost depth0: Depths, ghost level: nat)
    returns (s: Search, ghost depth: Depths, ghost pending: set<Id>)
    requires Serves(scope, edges, task.filter) && UniqueEdgeIds(edges)
    requires Counted(task, s0, Examined(edges, task.filter, {task.start}, level))
    ensures Counted(task, s, Examined(edges, task.filter, {task.start}, level))
    requires Scanning(edges, task, s0, depth0, level, Elements(current)) && !s0.Stopped()
    ensures Scanning(edges, task, s, depth, level, pending)
    ensures s.Stopped() || pending == {}
  {
    s, depth, pending := s0, depth0, Elements(current);
    ghost var around := Examined(edges, task.filter, {task.start}, level);
    assert current[0..] == current;
    for i := 0 to |current|
      invariant pending == Elements(current[i..])
      invariant Scanning(edges, task, s, depth, level, pending) && !s.Stopped()
      invariant Counted(task, s, around)
    {
      var n := current[i];
      TakeFirst(current, i);
      var part := Incident(scope, n, task.filter);
      assert ServesAt(edges, task.filter, n, part);
      forall e | e in part ensures e in around {
        PendingIsNear(edges, task, s, depth, level, pending, n, e);
      }
      s, depth := ScanNode(task, s, n, part, edges, depth, level, pending, around);
      if s.Stopped() { return; }
      DropPending(edges, task, s, depth, level, pending, n, Elements(current[i + 1..]));
      pending := Elements(current[i + 1..]);
    }
  }

  lemma {:induction false} TakeFirst(current: seq<Id>, i: nat)
    requires i < |current|
    ensures Elements(current[i..]) == {current[i]} + Elements(current[i + 1..])
  {
    assert current[i..] == [current[i]] + current[i + 1..];
  }

  /** Follows the parent links back from the goal. */
  method Rebuild(ghost edges: seq<Edge>, task: Task, s: Search, ghost depth: Depths)
    returns (stops: seq<Id>, via: seq<Edge>)
    requires Tree(edges, task.filter, task.start, s.parent, depth) && task.goal in depth
    ensures TrailBetween(edges, task.filter, task.start, task.goal, stops, via)
    ensures |via| == depth[task.goal] && Distinct(stops)
  {
    var cursor := task.goal;
    var tail: seq<Id> := [];
    via := [];
    while s.parent[cursor].Some?
      invariant cursor in depth && |tail| == |via| && depth[cursor] + |via| == depth[task.goal]
      invariant Trail(edges, task.filter, [cursor] + tail, via)
      invariant ([cursor] + tail)[|via|] == task.goal
      invariant forall i :: 0 <= i < |tail| ==> tail[i] in depth && depth[tail[i]] == depth[cursor] + i + 1
      decreases depth[cursor]
    {
      assert Hangs(edges, task.filter, s.parent, depth, cursor);
      var link := s.parent[cursor].value;
      TrailGrows(edges, task.filter, link, cursor, tail, via);
      tail := [cursor] + tail;
      via := [link.edge] + via;
      cursor := link.previous;
    }
    stops := [cursor] + tail;
    forall i, j | 0 <= i < j < |stops| ensures stops[i] != stops[j] {
      assert depth[stops[i]] == i && depth[stops[j]] == j;
    }
  }

  lemma {:induction false} TrailGrows(edges: seq<Edge>, f: Filter, link: Link, cursor: Id, tail: seq<Id>, via: seq<Edge>)
    requires Trail(edges, f, [cursor] + tail, via) && Hop(edges, f, link.edge, link.previous, cursor)
    ensures Trail(edges, f, [link.previous] + ([cursor] + tail), [link.edge] + via)
  {
    var stops, more := [link.previous] + ([cursor] + tail), [link.edge] + via;
    forall i | 0 <= i < |more| ensures Hop(edges, f, more[i], stops[i], stops[i + 1]) {
      if i > 0 { assert Hop(edges, f, via[i - 1], ([cursor] + tail)[i - 1], ([cursor] + tail)[i]); }
    }
  }

  // ---------------------------------------------------------------- the search

  datatype Finding = Finding(
    found: bool, stops: seq<Id>, via: seq<Edge>, visited: seq<Id>, unresolved: set<Edge>,
    exhausted: bool, depthReached: nat, frontier: seq<Id>)

  /** A found path: a shortest trail of the whole filtered graph, without repeated nodes. */
  ghost predicate ShortestFound(edges: seq<Edge>, task: Task, r: Finding) {
    && TrailBetween(edges, task.filter, task.start, task.goal, r.stops, r.via)
    && Distinct(r.stops) && |r.via| <= task.hops
    && forall stops, via :: TrailBetween(edges, task.filter, task.start, task.goal, stops, via) ==> |r.via| <= |via|
  }

  /** An admitted edge without a target, leaving a visited node in the direction of the search. */
  ghost predicate Open(edges: seq<Edge>, f: Filter, visited: seq<Id>, e: Edge) {
    e in edges && f.Admits(e) && !e.Resolved() && f.heading != Incoming && e.source in visited
  }

  /** The visited nodes are everything reachable, and every unresolved edge leaving them was kept. */
  ghost predicate SawEverything(edges: seq<Edge>, task: Task, r: Finding) {
    && (forall b :: b in r.visited <==> Connected(edges, task.filter, task.start, b))
    && ClosedUnderHops(edges, task.filter, Elements(r.visited))
    && (forall e :: Open(edges, task.filter, r.visited, e) ==> e in r.unresolved)
  }

  lemma {:induction false} ClosedIsEverything(edges: seq<Edge>, task: Task, s: Search, depth: Depths, level: nat)
    requires Scanning(edges, task, s, depth, level, {}) && s.next == [] && !s.found
    ensures forall b :: b in s.visited <==> Connected(edges, task.filter, task.start, b)
    ensures ClosedUnderHops(edges, task.filter, Elements(s.visited))
  {
    NothingPendingIsClosed(edges, task, s, depth, level);
    assert Elements(s.visited) == depth.Keys;
    forall b ensures b in depth <==> Connected(edges, task.filter, task.start, b) {
      if b in depth {
        var stops, via := TreeTrail(edges, task.filter, task.start, s.parent, depth, b);
      }
      if stops, via :| TrailBetween(edges, task.filter, task.start, b, stops, via) {
        TrailStaysInside(edges, task.filter, depth.Keys, stops, via);
      }
    }
  }

  lemma {:induction false} UnresolvedKept(edges: seq<Edge>, task: Task, s: Search, depth: Depths, level: nat)
    requires Scanning(edges, task, s, depth, level, {}) && s.next == [] && !s.found
    ensures forall e :: Open(edges, task.filter, s.visited, e) ==> e in s.unresolved
  {
    forall e | Open(edges, task.filter, s.visited, e) ensures e in s.unresolved {
      assert e.source in Elements(s.visited);
      assert Finished(edges, task.filter, s, depth, e.source) && Touches(e, e.source, task.filter.heading);
      assert Settled(s, depth, task.filter, e.source, e);
    }
  }

  /** What an unstopped search has shown after `level - 1` complete levels. */
  lemma {:induction false} NotFoundMeans(edges: seq<Edge>, task: Task, s: Search, depth: Depths, level: nat, current: seq<Id>)
    requires Scanning(edges, task, s, depth, level, Elements(current)) && s.next == [] && !s.Stopped() && 0 < level
    ensures !ConnectedWithin(edges, task.filter, task.start, task.goal, level - 1)
    ensures current == [] ==> !Connected(edges, task.filter, task.start, task.goal)
  {
    if stops, via :| TrailBetween(edges, task.filter, task.start, task.goal, stops, via) && |via| <= level - 1 {
      ShortTrailInside(edges, task, s, depth, level, Elements(current), stops, via);
    }
    if current == [] {
      assert Elements(current) == {};
      ClosedIsEverything(edges, task, s, depth, level);
      assert task.goal !in Elements(s.visited);
    }
  }

  lemma {:induction false} StartScanning(edges: seq<Edge>, task: Task)
    requires task.start != task.goal
    ensures Scanning(edges, task,
      Search(map[task.start := None], [task.start], {}, {}, [], false, false, false), map[task.start := 0], 1, {task.start})
  {
    assert Elements([task.start]) == {task.start};
  }

  /** A budget stopped the search only if the whole graph really has that much to look at. */
  ghost predicate HonestCut(edges: seq<Edge>, task: Task) {
    || |Ball(edges, task.filter, {task.start}, task.hops)| >= task.nodeBudget
    || |Examined(edges, task.filter, {task.start}, task.hops)| > task.edgeBudget
  }

  lemma {:induction false} CutIsHonest(edges: seq<Edge>, task: Task, s: Search, depth: Depths, level: nat, pending: set<Id>)
    requires Scanning(edges, task, s, depth, level, pending) && level <= task.hops && s.Exhausted()
    requires Counted(task, s, Examined(edges, task.filter, {task.start}, level))
    ensures HonestCut(edges, task)
  {
    var ball := Ball(edges, task.filter, {task.start}, task.hops);
    forall n | n in s.parent.Keys ensures n in ball {
      var stops, via := TreeTrail(edges, task.filter, task.start, s.parent, depth, n);
      TrailEndsInBall(edges, task.filter, {task.start}, stops, via);
      BallGrows(edges, task.filter, {task.start}, |via|, task.hops);
    }
    SubsetSize(s.parent.Keys, ball);
    ExaminedGrows(edges, task.filter, {task.start}, level, task.hops);
    SubsetSize(Examined(edges, task.filter, {task.start}, level), Examined(edges, task.filter, {task.start}, task.hops));
  }

  lemma {:induction false} VisitedConnected(edges: seq<Edge>, task: Task, s: Search, depth: Depths, level: nat, pending: set<Id>)
    requires Scanning(edges, task, s, depth, level, pending)
    ensures forall id :: id in s.visited ==> Connected(edges, task.filter, task.start, id)
    ensures task.start in s.visited
    ensures forall e :: e in s.unresolved ==> Open(edges, task.filter, s.visited, e)
  {
    assert task.start in Elements(s.visited);
    forall id | id in s.visited ensures Connected(edges, task.filter, task.start, id) {
      assert id in Elements(s.visited);
      var stops, via := TreeTrail(edges, task.filter, task.start, s.parent, depth, id);
    }
    forall e | e in s.unresolved ensures Open(edges, task.filter, s.visited, e) {
      assert e.source in Elements(s.visited);
    }
  }

  lemma {:induction false} FrontierIsNear(edges: seq<Edge>, task: Task, s: Search, depth: Depths, level: nat, current: seq<Id>, n: Id)
    requires Scanning(edges, task, s, depth, level, Elements(current)) && n in current && level >= 1
    ensures n in Ball(edges, task.filter, {task.start}, level - 1)
  {
    assert n in Elements(current);
    var stops, via := TreeTrail(edges, task.filter, task.start, s.parent, depth, n);
    TrailEndsInBall(edges, task.filter, {task.start}, stops, via);
  }

  lemma {:induction false} FrontierIsNotNearer(edges: seq<Edge>, task: Task, s: Search, depth: Depths, level: nat, current: seq<Id>, n: Id)
    requires Scanning(edges, task, s, depth, level, Elements(current)) && n in current && level >= 2
    ensures n !in Ball(edges, task.filter, {task.start}, level - 2)
  {
    assert n in Elements(current);
    if n in Ball(edges, task.filter, {task.start}, level - 2) {
      var a, ns, es := BallHasTrail(edges, task.filter, {task.start}, level - 2, n);
      ShortTrailInside(edges, task, s, depth, level, Elements(current), ns, es);
    }
  }

  /** A frontier left at the depth bound holds nodes that really are that far away. */
  ghost predicate StillGrowing(edges: seq<Edge>, task: Task) {
    task.hops > 0 ==>
      Ball(edges, task.filter, {task.start}, task.hops) != Ball(edges, task.filter, {task.start}, task.hops - 1)
  }

  /** What a finished search says, found or not. */
  ghost predicate Verdict(edges: seq<Edge>, task: Task, r: Finding) {
    && (r.found ==> ShortestFound(edges, task, r))
    && (!r.found ==> task.start != task.goal && task.start in r.visited)
    && (forall id :: id in r.visited ==> Connected(edges, task.filter, task.start, id))
    && (forall e :: e in r.unresolved ==> Open(edges, task.filter, r.visited, e))
    && (r.exhausted ==> HonestCut(edges, task))
    && (!r.found && !r.exhausted ==>
          && !ConnectedWithin(edges, task.filter, task.start, task.goal, task.hops)
          && (r.frontier == [] ==> SawEverything(edges, task, r) && !Connected(edges, task.filter, task.start, task.goal))
          && (r.frontier != [] ==> r.depthReached == task.hops && StillGrowing(edges, task)))
  }

  lemma {:induction false} FoundVerdict(
    edges: seq<Edge>, task: Task, s: Search, depth: Depths, level: nat, pending: set<Id>, stops: seq<Id>, via: seq<Edge>, current: seq<Id>)
    requires Scanning(edges, task, s, depth, level, pending) && s.found && level <= task.hops
    requires TrailBetween(edges, task.filter, task.start, task.goal, stops, via) && Distinct(stops)
    requires |via| == level
    ensures Verdict(edges, task, Finding(true, stops, via, s.visited, s.unresolved, false, level, current))
  {
    VisitedConnected(edges, task, s, depth, level, pending);
    forall ns, es | TrailBetween(edges, task.filter, task.start, task.goal, ns, es) ensures |via| <= |es| {
      FoundIsShortest(edges, task, s, depth, level, pending, ns, es);
    }
  }

  lemma {:induction false} CutVerdict(edges: seq<Edge>, task: Task, s: Search, depth: Depths, level: nat, pending: set<Id>, current: seq<Id>)
    requires Scanning(edges, task, s, depth, level, pending) && s.Exhausted() && level <= task.hops
    requires Counted(task, s, Examined(edges, task.filter, {task.start}, level))
    ensures Verdict(edges, task, Finding(false, [], [], s.visited, s.unresolved, true, level, current))
  {
    VisitedConnected(edges, task, s, depth, level, pending);
    CutIsHonest(edges, task, s, depth, level, pending);
  }

  lemma {:induction false} UnfoundVerdict(edges: seq<Edge>, task: Task, s: Search, depth: Depths, done: nat, current: seq<Id>)
    requires Scanning(edges, task, s, depth, done + 1, Elements(current)) && s.next == [] && !s.Stopped()
    requires done <= task.hops && (done < task.hops ==> current == [])
    ensures Verdict(edges, task, Finding(false, [], [], s.visited, s.unresolved, false, done, current))
  {
    NotFoundMeans(edges, task, s, depth, done + 1, current);
    VisitedConnected(edges, task, s, depth, done + 1, Elements(current));
    if current == [] {
      assert Elements(current) == {};
      ClosedIsEverything(edges, task, s, depth, done + 1);
      UnresolvedKept(edges, task, s, depth, done + 1);
      NoTrailNoShortTrail(edges, task.filter, task.start, task.goal, task.hops);
    } else if task.hops > 0 {
      FrontierIsNear(edges, task, s, depth, done + 1, current, current[0]);
      FrontierIsNotNearer(edges, task, s, depth, done + 1, current, current[0]);
    }
  }

  lemma {:induction false} TrivialVerdict(edges: seq<Edge>, task: Task)
    requires task.start == task.goal
    ensures Verdict(edges, task, Finding(true, [task.start], [], [task.start], {}, false, 0, [task.start]))
  {
    assert TrailBetween(edges, task.filter, task.start, task.goal, [task.start], []);
  }

  /** Between levels: `done` levels are complete and `current` is what the next one expands. */
  ghost predicate Reached(edges: seq<Edge>, task: Task, s: Search, depth: Depths, done: nat, current: seq<Id>) {
    && done <= task.hops && s.next == [] && !s.Stopped()
    && Scanning(edges, task, s, depth, done + 1, Elements(current))
    && Counted(task, s, Examined(edges, task.filter, {task.start}, done))
  }

  lemma {:induction false} Begins(edges: seq<Edge>, task: Task)
    requires task.start != task.goal
    ensures Reached(edges, task,
      Search(map[task.start := None], [task.start], {}, {}, [], false, false, false), map[task.start := 0], 0, [task.start])
  {
    StartScanning(edges, task);
    assert Elements([task.start]) == {task.start};
  }

  lemma {:induction false} MoreExamined(edges: seq<Edge>, task: Task, s: Search, done: nat)
    requires Counted(task, s, Examined(edges, task.filter, {task.start}, done))
    ensures Counted(task, s, Examined(edges, task.filter, {task.start}, done + 1))
  {
    ExaminedGrows(edges, task.filter, {task.start}, done, done + 1);
    CountedInLarger(task, s, Examined(edges, task.filter, {task.start}, done), Examined(edges, task.filter, {task.start}, done + 1));
  }

  lemma {:induction false} ReachesNext(edges: seq<Edge>, task: Task, s: Search, depth: Depths, done: nat)
    requires done < task.hops && !s.Stopped() && Scanning(edges, task, s, depth, done + 1, {})
    requires Counted(task, s, Examined(edges, task.filter, {task.start}, done + 1))
    ensures Reached(edges, task, s.(next := []), depth, done + 1, s.next)
  {
    NextLevel(edges, task, s, depth, done + 1);
  }

  /** One more level: an answer, or the state before the next level. */
  method OneLevel(scope: GraphSet, task: Task, s0: Search, current: seq<Id>, done: nat, ghost edges: seq<Edge>, ghost depth0: Depths)
    returns (r: Option<Finding>, s: Search, ghost depth: Depths)
    requires Serves(scope, edges, task.filter) && UniqueEdgeIds(edges)
    requires done < task.hops && Reached(edges, task, s0, depth0, done, current)
    ensures r.Some? ==> Verdict(edges, task, r.value)
    ensures r.None? ==> Reached(edges, task, s.(next := []), depth, done + 1, s.next)
  {
    MoreExamined(edges, task, s0, done);
    ghost var pending;
    s, depth, pending := ScanLevel(scope, task, s0, current, edges, depth0, done + 1);
    if s.found {
      var stops, via := Rebuild(edges, task, s, depth);
      FoundVerdict(edges, task, s, depth, done + 1, pending, stops, via, current);
      return Some(Finding(true, stops, via, s.visited, s.unresolved, false, done + 1, current)), s, depth;
    }
    if s.Exhausted() {
      CutVerdict(edges, task, s, depth, done + 1, pending, current);
      return Some(Finding(false, [], [], s.visited, s.unresolved, true, done + 1, current)), s, depth;
    }
    ReachesNext(edges, task, s, depth, done);
    r := None;
  }

  method FindPath(scope: GraphSet, task: Task) returns (r: Finding)
    requires scope.Valid() && UniqueEdgeIds(scope.Edges())
    ensures Verdict(scope.Edges(), task, r)
  {
    ghost var edges := scope.Edges();
    if task.start == task.goal {
      TrivialVerdict(edges, task);
      return Finding(true, [task.start], [], [task.start], {}, false, 0, [task.start]);
    }
    ScopeServes(scope, task.filter);
    Begins(edges, task);
    var s := Search(map[task.start := None], [task.start], {}, {}, [], false, false, false);
    var current := [task.start];
    ghost var depth: Depths := map[task.start := 0];
    var done: nat := 0;
    while done < task.hops && current != []
      invariant Reached(edges, task, s, depth, done, current)
    {
      var answer;
      answer, s, depth := OneLevel(scope, task, s, current, done, edges, depth);
      if answer.Some? { return answer.value; }
      current := s.next;
      s := s.(next := []);
      done := done + 1;
    }
    UnfoundVerdict(edges, task, s, depth, done, current);
    r := Finding(false, [], [], s.visited, s.unresolved, false, done, current);
  }

  lemma {:induction false} NoTrailNoShortTrail(edges: seq<Edge>, f: Filter, a: Id, b: Id, k: nat)
    ensures !Connected(edges, f, a, b) ==> !ConnectedWithin(edges, f, a, b, k)
  {
  }
}
