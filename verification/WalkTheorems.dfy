/** What the bounded walk's answer says about the whole graph. */
module WalkTheorems {
  import opened Ordering
  import opened Wrappers
  import opened GraphModel
  import opened Incidence
  import opened Traversal
  import opened Walks

  // ---------------------------------------------------------------- recorded edges

  /** The two dictionaries hold edges of the scope, split by whether they resolve. */
  ghost predicate Filed(edges: seq<Edge>, st: State) {
    && (forall e :: e in st.walked ==> e in edges && e.Resolved())
    && (forall e :: e in st.unresolved ==> e in edges && !e.Resolved())
  }

  lemma {:induction false} RecordedSize(edges: seq<Edge>, st: State)
    requires Filed(edges, st)
    ensures |st.Recorded()| == |st.walked| + |st.unresolved|
  {
    assert st.walked !! st.unresolved;
  }

  lemma {:induction false} KnownIsRecorded(edges: seq<Edge>, st: State, e: Edge)
    requires Filed(edges, st) && UniqueEdgeIds(edges) && e in edges
    ensures HasId(st.walked, e.id) <==> e in st.walked
    ensures HasId(st.unresolved, e.id) <==> e in st.unresolved
  {
  }

  // ---------------------------------------------------------------- inside one level

  /** One hop from `inner` stays in `ball`, along edges that all belong to `around`. */
  ghost predicate Reaches(edges: seq<Edge>, f: Filter, inner: set<Id>, ball: set<Id>, around: set<Edge>) {
    forall n, e :: n in inner && e in edges && f.Admits(e) && Touches(e, n, f.heading) ==>
      && e in around
      && (OtherEnd(e, n, f.heading).Some? ==> OtherEnd(e, n, f.heading).value in ball)
  }

  ghost predicate EdgesKept(edges: seq<Edge>, around: set<Edge>, q: Query, st: State) {
    && Filed(edges, st) && st.Recorded() <= around
    && |st.walked| + |st.unresolved| <= q.maxEdges
    && (st.edgesCut ==> |around| > q.maxEdges)
  }

  ghost predicate NodesKept(ball: set<Id>, q: Query, visited: set<Id>, st: State) {
    && st.visited == visited && st.Seen() <= ball
    && |st.Seen()| == |visited| + |st.discovered| <= q.maxNodes
    && (st.nodesCut ==> |ball| > q.maxNodes && |st.Seen()| == q.maxNodes)
  }

  ghost predicate Grows(s: State, t: State) {
    && s.Seen() <= t.Seen() && s.Recorded() <= t.Recorded() && (s.Cut() ==> t.Cut())
  }

  /** `e`, examined from `n`, was neither dropped nor left unfollowed. */
  ghost predicate Covered(st: State, n: Id, e: Edge, heading: Heading) {
    && e in st.Recorded()
    && (OtherEnd(e, n, heading).Some? ==> OtherEnd(e, n, heading).value in st.Seen())
  }

  lemma {:induction false} NoteLeavesNodes(st: State, e: Edge)
    ensures var t := Note(st, e);
      && t.visited == st.visited && t.discovered == st.discovered && t.Seen() == st.Seen()
      && t.nodesCut == st.nodesCut && t.edgesCut == st.edgesCut && t.blocked == st.blocked
  {
  }

  lemma {:induction false} NoteKnown(edges: seq<Edge>, st: State, e: Edge)
    requires UniqueEdgeIds(edges) && Filed(edges, st) && e in edges && e in st.Recorded()
    ensures Note(st, e) == st
  {
    KnownIsRecorded(edges, st, e);
  }

  lemma {:induction false} NoteNew(edges: seq<Edge>, st: State, e: Edge)
    requires Filed(edges, st) && e in edges && !HasId(st.walked, e.id) && !HasId(st.unresolved, e.id)
    ensures var t := Note(st, e);
      && Filed(edges, t) && t.Recorded() == st.Recorded() + {e}
      && |t.walked| + |t.unresolved| == |st.walked| + |st.unresolved| + 1
  {
    var t := Note(st, e);
    if e.Resolved() {
      assert e !in st.walked;
      assert t.walked == st.walked + {e} && t.unresolved == st.unresolved;
    } else {
      assert e !in st.unresolved;
      assert t.walked == st.walked && t.unresolved == st.unresolved + {e};
    }
  }

  lemma {:induction false} RoomLeft(edges: seq<Edge>, around: set<Edge>, st: State, e: Edge)
    requires Filed(edges, st) && st.Recorded() <= around && e in around && e !in st.Recorded()
    ensures |around| > |st.walked| + |st.unresolved|
  {
    RecordedSize(edges, st);
    SubsetSize(st.Recorded() + {e}, around);
  }

  lemma {:induction false} NoteKeeps(edges: seq<Edge>, around: set<Edge>, q: Query, st: State, e: Edge)
    requires UniqueEdgeIds(edges) && EdgesKept(edges, around, q, st) && e in edges && e in around
    ensures var known := HasId(st.walked, e.id) || HasId(st.unresolved, e.id);
      if !known && |st.walked| + |st.unresolved| >= q.maxEdges then |around| > q.maxEdges
      else EdgesKept(edges, around, q, Note(st, e)) && Note(st, e).Recorded() == st.Recorded() + {e}
  {
    KnownIsRecorded(edges, st, e);
    if e in st.Recorded() {
      NoteKnown(edges, st, e);
    } else {
      NoteNew(edges, st, e);
      RoomLeft(edges, around, st, e);
    }
  }

  lemma {:induction false} FollowKeeps(ball: set<Id>, q: Query, visited: set<Id>, st: State, n: Id, other: Option<Id>)
    requires NodesKept(ball, q, visited, st)
    requires other.Some? ==> other.value in ball
    ensures var t := Follow(st, n, other, q);
      && NodesKept(ball, q, visited, t) && Grows(st, t)
      && t.walked == st.walked && t.unresolved == st.unresolved && t.edgesCut == st.edgesCut
      && (t.Cut() || (other.Some? ==> other.value in t.Seen()))
  {
    if other.Some? && other.value !in st.Seen() {
      SubsetSize(st.Seen() + {other.value}, ball);
      SeenGrows(st, other.value);
    }
  }

  lemma {:induction false} SeenGrows(st: State, far: Id)
    requires far !in st.Seen()
    ensures var t := st.(discovered := st.discovered + [far]);
      t.Seen() == st.Seen() + {far} && |t.Seen()| == |st.Seen()| + 1
  {
    assert Elements(st.discovered + [far]) == Elements(st.discovered) + {far};
    var t := st.(discovered := st.discovered + [far]);
    assert t.Seen() == st.Seen() + {far};
  }

  /** Recording an edge does not touch the nodes; following it does not touch the edges. */
  lemma {:induction false} NotedAndFollowed(edges: seq<Edge>, ball: set<Id>, around: set<Edge>, q: Query, visited: set<Id>, st: State, n: Id, e: Edge)
    requires EdgesKept(edges, around, q, Note(st, e)) && Note(st, e).Recorded() == st.Recorded() + {e}
    requires NodesKept(ball, q, visited, st)
    requires OtherEnd(e, n, q.filter.heading).Some? ==> OtherEnd(e, n, q.filter.heading).value in ball
    ensures var t := Follow(Note(st, e), n, OtherEnd(e, n, q.filter.heading), q);
      && EdgesKept(edges, around, q, t) && NodesKept(ball, q, visited, t) && Grows(st, t)
      && (t.Cut() || Covered(t, n, e, q.filter.heading))
  {
    NoteLeavesNodes(st, e);
    FollowKeeps(ball, q, visited, Note(st, e), n, OtherEnd(e, n, q.filter.heading));
  }

  lemma {:induction false} DroppedKeeps(edges: seq<Edge>, ball: set<Id>, around: set<Edge>, q: Query, visited: set<Id>, st: State, n: Id)
    requires EdgesKept(edges, around, q, st) && NodesKept(ball, q, visited, st) && |around| > q.maxEdges
    ensures var t := st.(edgesCut := true, blocked := st.blocked + {n});
      EdgesKept(edges, around, q, t) && NodesKept(ball, q, visited, t) && Grows(st, t)
  {
    var t := st.(edgesCut := true, blocked := st.blocked + {n});
    assert t.Seen() == st.Seen() && t.Recorded() == st.Recorded();
  }

  lemma {:induction false} ExamineKeeps(edges: seq<Edge>, ball: set<Id>, around: set<Edge>, q: Query, visited: set<Id>, st: State, n: Id, e: Edge)
    requires UniqueEdgeIds(edges) && EdgesKept(edges, around, q, st) && NodesKept(ball, q, visited, st)
    requires e in edges && e in around
    requires OtherEnd(e, n, q.filter.heading).Some? ==> OtherEnd(e, n, q.filter.heading).value in ball
    ensures var t := Examine(st, n, e, q);
      && EdgesKept(edges, around, q, t) && NodesKept(ball, q, visited, t) && Grows(st, t)
      && (t.Cut() || Covered(t, n, e, q.filter.heading))
  {
    NoteKeeps(edges, around, q, st, e);
    var known := HasId(st.walked, e.id) || HasId(st.unresolved, e.id);
    if !known && |st.walked| + |st.unresolved| >= q.maxEdges {
      DroppedKeeps(edges, ball, around, q, visited, st, n);
    } else {
      NotedAndFollowed(edges, ball, around, q, visited, st, n, e);
    }
  }

  lemma {:induction false} ExamineAllKeeps(
    edges: seq<Edge>, ball: set<Id>, around: set<Edge>, q: Query, visited: set<Id>, st: State, n: Id, part: seq<Edge>)
    requires UniqueEdgeIds(edges) && Reaches(edges, q.filter, visited, ball, around)
    requires EdgesKept(edges, around, q, st) && NodesKept(ball, q, visited, st) && n in visited
    requires forall e :: e in part ==> e in edges && q.filter.Admits(e) && Touches(e, n, q.filter.heading)
    ensures var t := ExamineAll(st, n, part, q);
      && EdgesKept(edges, around, q, t) && NodesKept(ball, q, visited, t) && Grows(st, t)
      && (t.Cut() || forall e :: e in part ==> Covered(t, n, e, q.filter.heading))
  {
    if part != [] {
      var front, e := part[..|part| - 1], part[|part| - 1];
      assert part == front + [e];
      ExamineAllKeeps(edges, ball, around, q, visited, st, n, front);
      var s := ExamineAll(st, n, front, q);
      ExamineKeeps(edges, ball, around, q, visited, s, n, e);
      var t := Examine(s, n, e, q);
      if !t.Cut() {
        forall d | d in front ensures Covered(t, n, d, q.filter.heading) {
          assert Covered(s, n, d, q.filter.heading);
        }
      }
    }
  }

  /** Every admitted edge at `n` was recorded and followed. */
  ghost predicate NodeCovered(edges: seq<Edge>, f: Filter, st: State, n: Id) {
    forall e :: e in edges && f.Admits(e) && Touches(e, n, f.heading) ==> Covered(st, n, e, f.heading)
  }

  lemma {:induction false} CoveredStays(edges: seq<Edge>, f: Filter, s: State, t: State, n: Id)
    requires NodeCovered(edges, f, s, n) && s.Recorded() <= t.Recorded() && s.Seen() <= t.Seen()
    ensures NodeCovered(edges, f, t, n)
  {
    forall e | e in edges && f.Admits(e) && Touches(e, n, f.heading) ensures Covered(t, n, e, f.heading) {
      assert Covered(s, n, e, f.heading);
    }
  }

  lemma {:induction false} ExpandOneKeeps(
    edges: seq<Edge>, ball: set<Id>, around: set<Edge>, q: Query, visited: set<Id>, st: State, n: Id, part: seq<Edge>)
    requires ServesAt(edges, q.filter, n, part) && UniqueEdgeIds(edges) && Reaches(edges, q.filter, visited, ball, around)
    requires EdgesKept(edges, around, q, st) && NodesKept(ball, q, visited, st) && n in visited
    ensures var t := ExamineAll(st, n, part, q);
      && EdgesKept(edges, around, q, t) && NodesKept(ball, q, visited, t) && Grows(st, t)
      && (t.Cut() || NodeCovered(edges, q.filter, t, n))
  {
    ExamineAllKeeps(edges, ball, around, q, visited, st, n, part);
  }

  lemma {:induction false} ExpandAllKeeps(
    scope: GraphSet, edges: seq<Edge>, ball: set<Id>, around: set<Edge>, q: Query, visited: set<Id>, st: State, current: seq<Id>)
    requires Serves(scope, edges, q.filter) && UniqueEdgeIds(edges) && Reaches(edges, q.filter, visited, ball, around)
    requires EdgesKept(edges, around, q, st) && NodesKept(ball, q, visited, st)
    requires forall n :: n in current ==> n in visited
    ensures var t := ExpandAll(scope, st, current, q);
      && EdgesKept(edges, around, q, t) && NodesKept(ball, q, visited, t) && Grows(st, t)
      && (t.Cut() || forall n :: n in current ==> NodeCovered(edges, q.filter, t, n))
  {
    if current != [] {
      var front, n := current[..|current| - 1], current[|current| - 1];
      assert current == front + [n];
      ExpandAllKeeps(scope, edges, ball, around, q, visited, st, front);
      var s := ExpandAll(scope, st, front, q);
      assert ServesAt(edges, q.filter, n, Incident(scope, n, q.filter));
      ExpandOneKeeps(edges, ball, around, q, visited, s, n, Incident(scope, n, q.filter));
      var t := ExpandAll(scope, st, current, q);
      if !t.Cut() {
        forall m | m in front ensures NodeCovered(edges, q.filter, t, m) {
          CoveredStays(edges, q.filter, s, t, m);
        }
      }
    }
  }

  // ---------------------------------------------------------------- whole levels

  /** What holds after complete levels whose ball and examined edges are the given sets. */
  ghost predicate Complete(nodes: map<Id, Node>, edges: seq<Edge>, q: Query, ball: set<Id>, around: set<Edge>, lv: Level) {
    var st := lv.state;
    && st.discovered == [] && NodesKept(ball, q, st.visited, st) && EdgesKept(edges, around, q, st)
    && st.visited <= nodes.Keys
    && (forall n :: n in lv.current ==> n in st.visited)
    && (!st.Cut() ==>
          && st.visited == ball && st.Recorded() == around
          && forall n :: n in ball && n !in lv.current ==> NodeCovered(edges, q.filter, st, n))
  }

  lemma {:induction false} KeptRootsFit(q: Query)
    ensures Elements(KeptRoots(q)) <= Elements(q.roots)
    ensures |Elements(KeptRoots(q))| == |KeptRoots(q)| <= q.maxNodes
    ensures |SortedIds(Elements(q.roots))| == |Elements(q.roots)|
    ensures |Elements(q.roots)| <= q.maxNodes ==> Elements(KeptRoots(q)) == Elements(q.roots)
    ensures |Elements(q.roots)| > q.maxNodes ==> |KeptRoots(q)| == q.maxNodes
  {
    var ordered, kept := SortedIds(Elements(q.roots)), KeptRoots(q);
    forall id | id in kept ensures id in ordered {
    }
    DistinctSize(kept);
  }

  ghost predicate LevelHolds(
    scope: GraphSet, edges: seq<Edge>, q: Query, ball: set<Id>, around: set<Edge>, outcome: Outcome<Level>)
  {
    && (outcome.Success? ==> Complete(scope.nodes, edges, q, ball, around, outcome.value))
    && (outcome.Failure? ==> outcome.error in ball && outcome.error !in scope.nodes)
  }

  lemma {:induction false} StartCompletes(scope: GraphSet, edges: seq<Edge>, q: Query)
    ensures LevelHolds(scope, edges, q, Elements(q.roots), {}, Start(scope, q))
  {
    KeptRootsFit(q);
    var kept := KeptRoots(q);
    var start := Start(scope, q);
    var roots := Elements(q.roots);
    if start.Success? {
      var st := start.value.state;
      assert st.Seen() == Elements(kept) && st.Recorded() == {};
      assert NodesKept(roots, q, st.visited, st);
      assert EdgesKept(edges, {}, q, st);
      assert st.visited <= scope.nodes.Keys;
      assert forall n :: n in start.value.current ==> n in st.visited;
      assert !st.Cut() ==> st.visited == roots;
      assert !st.Cut() ==> forall n :: n in roots && n !in start.value.current ==> NodeCovered(edges, q.filter, st, n);
      assert Complete(scope.nodes, edges, q, roots, {}, start.value);
    } else {
      assert start.error in Elements(kept);
    }
  }

  lemma {:induction false} NextReaches(edges: seq<Edge>, f: Filter, ball: set<Id>)
    ensures Reaches(edges, f, ball, ball + Next(edges, f, ball), Around(edges, f, ball))
  {
    forall n, e | n in ball && e in edges && f.Admits(e) && Touches(e, n, f.heading)
      ensures e in Around(edges, f, ball)
      ensures OtherEnd(e, n, f.heading).Some? ==> OtherEnd(e, n, f.heading).value in Next(edges, f, ball)
    {
      AroundIsTouching(edges, f, ball, e);
      var far := OtherEnd(e, n, f.heading);
      if far.Some? {
        assert Hop(edges, f, e, n, far.value);
        NextIsHop(edges, f, ball, far.value);
      }
    }
  }

  /** Once every node of a ball is covered, the next ball and its edges are what has been seen. */
  lemma {:induction false} CoverageIsNextBall(edges: seq<Edge>, f: Filter, ball: set<Id>, st: State)
    requires forall n :: n in ball ==> NodeCovered(edges, f, st, n)
    ensures Next(edges, f, ball) <= st.Seen()
    ensures Around(edges, f, ball) <= st.Recorded()
  {
    forall b | b in Next(edges, f, ball) ensures b in st.Seen() {
      NextIsHop(edges, f, ball, b);
      var e, a :| a in ball && Hop(edges, f, e, a, b);
      assert NodeCovered(edges, f, st, a) && Touches(e, a, f.heading);
      assert Covered(st, a, e, f.heading);
    }
    forall e | e in Around(edges, f, ball) ensures e in st.Recorded() {
      AroundIsTouching(edges, f, ball, e);
      var n :| n in ball && Touches(e, n, f.heading);
      assert NodeCovered(edges, f, st, n);
      assert Covered(st, n, e, f.heading);
    }
  }

  /** A larger ball and a larger edge set keep everything that was kept. */
  lemma {:induction false} KeptInLarger(edges: seq<Edge>, q: Query, st: State, ball: set<Id>, around: set<Edge>, more: set<Id>, wider: set<Edge>)
    requires NodesKept(ball, q, st.visited, st) && EdgesKept(edges, around, q, st)
    requires ball <= more && around <= wider
    ensures NodesKept(more, q, st.visited, st) && EdgesKept(edges, wider, q, st)
  {
    SubsetSize(ball, more);
    SubsetSize(around, wider);
  }

  /** Expanding a level keeps the bounds, and covers the whole ball unless something was cut. */
  lemma {:induction false} ExpandLevelKeeps(
    scope: GraphSet, edges: seq<Edge>, q: Query, ball: set<Id>, around: set<Edge>, more: set<Id>, wider: set<Edge>, lv: Level)
    requires Serves(scope, edges, q.filter) && UniqueEdgeIds(edges)
    requires Complete(scope.nodes, edges, q, ball, around, lv)
    requires Reaches(edges, q.filter, ball, more, wider) && ball <= more && around <= wider
    ensures var t := ExpandAll(scope, lv.state, lv.current, q);
      && NodesKept(more, q, lv.state.visited, t) && EdgesKept(edges, wider, q, t)
      && (t.Cut() || (ball == t.visited && forall n :: n in ball ==> NodeCovered(edges, q.filter, t, n)))
  {
    var f, st := q.filter, lv.state;
    KeptInLarger(edges, q, st, ball, around, more, wider);
    assert Reaches(edges, f, st.visited, more, wider);
    ExpandAllKeeps(scope, edges, more, wider, q, st.visited, st, lv.current);
    var t := ExpandAll(scope, st, lv.current, q);
    if !t.Cut() {
      forall n | n in ball ensures NodeCovered(edges, f, t, n) {
        if n !in lv.current { CoveredStays(edges, f, st, t, n); }
      }
    }
  }

  lemma {:induction false} AdvanceCompletes(scope: GraphSet, edges: seq<Edge>, q: Query, k: nat, ball: set<Id>, around: set<Edge>, lv: Level)
    requires Serves(scope, edges, q.filter) && UniqueEdgeIds(edges)
    requires Complete(scope.nodes, edges, q, ball, around, lv)
    requires around <= Around(edges, q.filter, ball)
    ensures LevelHolds(scope, edges, q, ball + Next(edges, q.filter, ball), Around(edges, q.filter, ball), Advance(scope, lv, k, q))
  {
    var more, wider := ball + Next(edges, q.filter, ball), Around(edges, q.filter, ball);
    NextReaches(edges, q.filter, ball);
    ExpandLevelKeeps(scope, edges, q, ball, around, more, wider, lv);
    var t := ExpandAll(scope, lv.state, lv.current, q);
    if !t.Cut() {
      CoverageIsNextBall(edges, q.filter, ball, t);
      assert more <= t.Seen();
    }
    AdmitKeeps(scope, edges, q, k, ball, more, wider, lv, t);
  }

  /** The level that `t` becomes once what it discovered is admitted. */
  lemma {:induction false} AdmitKeeps(
    scope: GraphSet, edges: seq<Edge>, q: Query, k: nat, ball: set<Id>, more: set<Id>, wider: set<Edge>, lv: Level, t: State)
    requires t == ExpandAll(scope, lv.state, lv.current, q)
    requires lv.state.visited <= scope.nodes.Keys
    requires NodesKept(more, q, lv.state.visited, t) && EdgesKept(edges, wider, q, t)
    requires !t.Cut() ==> more <= t.Seen() && wider <= t.Recorded() && t.visited <= ball
    requires !t.Cut() ==> forall n :: n in ball ==> NodeCovered(edges, q.filter, t, n)
    ensures LevelHolds(scope, edges, q, more, wider, Advance(scope, lv, k, q))
  {
    var u := t.(visited := t.Seen(), discovered := []);
    AdmitDiscovered(edges, q, more, wider, lv.state.visited, t, ball);
    var missing := FirstUnpinned(scope.nodes, t.discovered);
    if missing.Some? {
      assert missing.value in Elements(t.discovered);
    } else {
      assert t.Seen() <= scope.nodes.Keys;
      forall n | n in t.discovered ensures n in u.visited {
        assert n in Elements(t.discovered);
      }
    }
  }

  /** Moving the discovered nodes into the visited ones loses nothing. */
  lemma {:induction false} AdmitDiscovered(edges: seq<Edge>, q: Query, more: set<Id>, wider: set<Edge>, visited: set<Id>, t: State, ball: set<Id>)
    requires NodesKept(more, q, visited, t) && EdgesKept(edges, wider, q, t)
    ensures var u := t.(visited := t.Seen(), discovered := []);
      && NodesKept(more, q, t.Seen(), u) && EdgesKept(edges, wider, q, u)
      && u.Seen() == t.Seen() && u.Recorded() == t.Recorded()
      && forall n :: NodeCovered(edges, q.filter, t, n) ==> NodeCovered(edges, q.filter, u, n)
  {
    var u := t.(visited := t.Seen(), discovered := []);
    assert u.Seen() == t.Seen();
    forall n | NodeCovered(edges, q.filter, t, n) ensures NodeCovered(edges, q.filter, u, n) {
      CoveredStays(edges, q.filter, t, u, n);
    }
  }

  lemma {:induction false} LevelStep(scope: GraphSet, edges: seq<Edge>, q: Query, k: nat, ball: set<Id>, around: set<Edge>, before: Outcome<Level>)
    requires Serves(scope, edges, q.filter) && UniqueEdgeIds(edges)
    requires LevelHolds(scope, edges, q, ball, around, before) && around <= Around(edges, q.filter, ball)
    ensures LevelHolds(scope, edges, q, ball + Next(edges, q.filter, ball), Around(edges, q.filter, ball),
      if before.Failure? then before else Advance(scope, before.value, k, q))
  {
    if before.Success? {
      AdvanceCompletes(scope, edges, q, k, ball, around, before.value);
    }
  }

  ghost predicate LevelsHold(scope: GraphSet, edges: seq<Edge>, q: Query, k: nat) {
    LevelHolds(scope, edges, q,
      Ball(edges, q.filter, Elements(q.roots), k), Examined(edges, q.filter, Elements(q.roots), k), Levels(scope, q, k))
  }

  lemma {:induction false} LevelsFirst(scope: GraphSet, edges: seq<Edge>, q: Query)
    ensures LevelsHold(scope, edges, q, 0)
  {
    StartCompletes(scope, edges, q);
    assert Ball(edges, q.filter, Elements(q.roots), 0) == Elements(q.roots);
    assert Examined(edges, q.filter, Elements(q.roots), 0) == {};
    assert Levels(scope, q, 0) == Start(scope, q);
  }

  lemma {:induction false} LevelsNext(scope: GraphSet, edges: seq<Edge>, q: Query, k: nat)
    requires k > 0
    requires Serves(scope, edges, q.filter) && UniqueEdgeIds(edges)
    requires LevelsHold(scope, edges, q, k - 1)
    ensures LevelsHold(scope, edges, q, k)
  {
    var f, roots := q.filter, Elements(q.roots);
    var before := Levels(scope, q, k - 1);
    var ball, around := Ball(edges, f, roots, k - 1), Examined(edges, f, roots, k - 1);
    assert around <= Around(edges, f, ball) by { ExaminedGrows(edges, f, roots, k - 1, k); }
    LevelStep(scope, edges, q, k, ball, around, before);
    UnfoldLevel(scope, q, k);
    assert Ball(edges, f, roots, k) == ball + Next(edges, f, ball);
    assert Examined(edges, f, roots, k) == Around(edges, f, ball);
  }

  lemma {:induction false} LevelsComplete(scope: GraphSet, edges: seq<Edge>, q: Query, k: nat)
    requires Serves(scope, edges, q.filter) && UniqueEdgeIds(edges)
    ensures LevelsHold(scope, edges, q, k)
  {
    if k == 0 {
      LevelsFirst(scope, edges, q);
    } else {
      LevelsComplete(scope, edges, q, k - 1);
      LevelsNext(scope, edges, q, k);
    }
  }

  lemma {:induction false} UnfoldLevel(scope: GraphSet, q: Query, k: nat)
    requires k > 0
    ensures var before := Levels(scope, q, k - 1);
      Levels(scope, q, k) == if before.Failure? then before else Advance(scope, before.value, k, q)
  {
  }

  // ---------------------------------------------------------------- the theorem

  /**
    The walk is exact. It is untruncated exactly when the ball and the edges it must examine fit
    the two budgets; then it returns precisely that ball and precisely those edges. Each reason it
    gives is true of the whole graph, and it fails only by really meeting an unpinned node.
  */
  lemma {:induction false} WalkIsExact(scope: GraphSet, q: Query)
    requires scope.Valid() && UniqueEdgeIds(scope.Edges())
    ensures
      var ball := Ball(scope.Edges(), q.filter, Elements(q.roots), q.depth);
      var around := Examined(scope.Edges(), q.filter, Elements(q.roots), q.depth);
      match WalkOf(scope, q)
      case Failure(id) => id in ball && id !in scope.nodes
      case Success(w) =>
        && (!w.Truncated() <==> |ball| <= q.maxNodes && |around| <= q.maxEdges)
        && (!w.Truncated() ==>
              && w.nodes == ball
              && w.edges == (set e | e in around && e.Resolved())
              && w.unresolved == (set e | e in around && !e.Resolved()))
        && (w.nodesCut ==> |ball| > q.maxNodes && |w.nodes| == q.maxNodes)
        && (w.edgesCut ==> |around| > q.maxEdges)
        && w.nodes <= ball && |w.nodes| <= q.maxNodes
        && w.edges + w.unresolved <= around && |w.edges| + |w.unresolved| <= q.maxEdges
  {
    ScopeServes(scope, q.filter);
    LevelsComplete(scope, scope.Edges(), q, q.depth);
    var ball := Ball(scope.Edges(), q.filter, Elements(q.roots), q.depth);
    var around := Examined(scope.Edges(), q.filter, Elements(q.roots), q.depth);
    var lv := Levels(scope, q, q.depth);
    if lv.Success? {
      CompleteSays(scope.nodes, scope.Edges(), q, ball, around, lv.value);
    }
  }

  lemma {:induction false} CompleteSays(nodes: map<Id, Node>, edges: seq<Edge>, q: Query, ball: set<Id>, around: set<Edge>, lv: Level)
    requires Complete(nodes, edges, q, ball, around, lv)
    ensures var st := lv.state;
      && (!st.Cut() <==> |ball| <= q.maxNodes && |around| <= q.maxEdges)
      && (!st.Cut() ==>
            && st.visited == ball
            && st.walked == (set e | e in around && e.Resolved())
            && st.unresolved == (set e | e in around && !e.Resolved()))
      && (st.nodesCut ==> |st.visited| == q.maxNodes)
      && st.visited <= ball && |st.visited| <= q.maxNodes
      && st.walked + st.unresolved <= around && |st.walked| + |st.unresolved| <= q.maxEdges
  {
    RecordedSize(edges, lv.state);
    assert lv.state.Seen() == lv.state.visited;
  }

  /** A graph whose reachable nodes are all pinned is always answered. */
  lemma {:induction false} ClosedScopeIsAnswered(scope: GraphSet, q: Query)
    requires scope.Valid() && UniqueEdgeIds(scope.Edges())
    requires Ball(scope.Edges(), q.filter, Elements(q.roots), q.depth) <= scope.nodes.Keys
    ensures WalkOf(scope, q).Success?
  {
    WalkIsExact(scope, q);
  }

  // ---------------------------------------------------------------- order independence

  ghost predicate SameView(a: GraphSet, b: GraphSet, f: Filter) {
    a.nodes == b.nodes && forall n :: Incident(a, n, f) == Incident(b, n, f)
  }

  lemma {:induction false} ExpandForgetsOrder(a: GraphSet, b: GraphSet, st: State, current: seq<Id>, q: Query)
    requires SameView(a, b, q.filter)
    ensures ExpandAll(a, st, current, q) == ExpandAll(b, st, current, q)
  {
    if current != [] {
      ExpandForgetsOrder(a, b, st, current[..|current| - 1], q);
    }
  }

  lemma {:induction false} AdvanceForgetsOrder(a: GraphSet, b: GraphSet, q: Query, k: nat, lv: Level)
    requires SameView(a, b, q.filter)
    ensures Advance(a, lv, k, q) == Advance(b, lv, k, q)
  {
    ExpandForgetsOrder(a, b, lv.state, lv.current, q);
  }

  lemma {:induction false} LevelsForgetOrder(a: GraphSet, b: GraphSet, q: Query, k: nat)
    requires SameView(a, b, q.filter)
    ensures Levels(a, q, k) == Levels(b, q, k)
  {
    if k > 0 {
      LevelsForgetOrder(a, b, q, k - 1);
      if Levels(a, q, k - 1).Success? { AdvanceForgetsOrder(a, b, q, k, Levels(a, q, k - 1).value); }
    }
  }

  /**
    The whole answer, truncated or not, is a function of the pinned facts: permuting the members
    of the scope, or the tuples inside any member, changes nothing.
  */
  lemma {:induction false} WalkForgetsOrder(a: GraphSet, b: GraphSet, q: Query)
    requires a.Valid() && b.Valid() && a.missing == b.missing && UniqueEdgeIds(a.Edges())
    requires multiset(Bags(a.graphs)) == multiset(Bags(b.graphs))
    ensures WalkOf(a, q) == WalkOf(b, q)
  {
    RearrangedMembers(a, b);
    forall n ensures Incident(a, n, q.filter) == Incident(b, n, q.filter) {
      IncidentForgetsOrder(a, b, n, q.filter);
    }
    LevelsForgetOrder(a, b, q, q.depth);
  }
}
