/** What else a bounded walk tells: the edges behind each node, the frontier, and the depth it reached. */
module WalkDetails {
  import opened Ordering
  import opened Wrappers
  import opened GraphModel
  import opened Incidence
  import opened Traversal
  import opened Walks
  import opened WalkTheorems

  // ---------------------------------------------------------------- one edge examined

  /** Every node just discovered lies one recorded hop from a node of `base`, and is new. */
  ghost predicate Explained(edges: seq<Edge>, f: Filter, base: set<Id>, st: State) {
    forall x {:trigger HasHop(edges, f, base, st.walked, x)} ::
      x in st.discovered ==> x !in st.visited && HasHop(edges, f, base, st.walked, x)
  }

  ghost predicate HasHop(edges: seq<Edge>, f: Filter, base: set<Id>, walked: set<Edge>, x: Id) {
    exists e, n :: n in base && e in walked && Hop(edges, f, e, n, x)
  }

  /** Both ends of every recorded edge are nodes of the walk, unless nodes were cut. */
  ghost predicate EndsMet(st: State) {
    st.nodesCut || forall e :: e in st.walked ==> e.Resolved() && e.source in st.Seen() && e.target.id in st.Seen()
  }

  /** At `n` an edge went unrecorded for want of edges, or a node unvisited for want of nodes. */
  ghost predicate Stopped(edges: seq<Edge>, q: Query, st: State, n: Id) {
    || (|st.walked| + |st.unresolved| >= q.maxEdges && LeftEdge(edges, q.filter, st, n))
    || (|st.Seen()| >= q.maxNodes && LeftNode(edges, q.filter, st, n))
  }

  ghost predicate LeftEdge(edges: seq<Edge>, f: Filter, st: State, n: Id) {
    exists e :: e in edges && f.Admits(e) && Touches(e, n, f.heading) && e !in st.Recorded()
  }

  ghost predicate LeftNode(edges: seq<Edge>, f: Filter, st: State, n: Id) {
    exists e, x :: Hop(edges, f, e, n, x) && x !in st.Seen()
  }

  /** A root that did not fit. */
  ghost predicate LeftRoot(q: Query, st: State, n: Id) {
    |st.Seen()| >= q.maxNodes && n in Elements(q.roots) && n !in st.Seen()
  }

  ghost predicate Honest(edges: seq<Edge>, q: Query, st: State) {
    && (st.blocked == {} <==> !st.Cut())
    && forall n :: n in st.blocked ==> Stopped(edges, q, st, n) || LeftRoot(q, st, n)
  }

  /** One action of the walk on its state: nothing new, an edge recorded, a node discovered, or a cut. */
  ghost predicate Steps(q: Query, s: State, t: State) {
    && t.visited == s.visited && (s.Cut() ==> t.Cut())
    && s.Recorded() <= t.Recorded() && s.walked <= t.walked && s.Seen() <= t.Seen()
    && (|s.walked| + |s.unresolved| >= q.maxEdges ==> t.walked == s.walked && t.unresolved == s.unresolved)
    && (|s.Seen()| >= q.maxNodes ==> t.Seen() == s.Seen())
  }

  /** What stopped the walk at a node stays in its way. */
  lemma {:induction false} StoppedStays(edges: seq<Edge>, q: Query, s: State, t: State, n: Id)
    requires Steps(q, s, t) && (Stopped(edges, q, s, n) || LeftRoot(q, s, n))
    ensures Stopped(edges, q, t, n) || LeftRoot(q, t, n)
  {
    if |s.walked| + |s.unresolved| >= q.maxEdges && LeftEdge(edges, q.filter, s, n) {
      var e :| e in edges && q.filter.Admits(e) && Touches(e, n, q.filter.heading) && e !in s.Recorded();
      assert e !in t.Recorded();
      assert LeftEdge(edges, q.filter, t, n);
    } else if |s.Seen()| >= q.maxNodes && LeftNode(edges, q.filter, s, n) {
      var e, x :| Hop(edges, q.filter, e, n, x) && x !in s.Seen();
      assert x !in t.Seen();
      assert LeftNode(edges, q.filter, t, n);
    }
  }

  lemma {:induction false} ExplainedStays(edges: seq<Edge>, f: Filter, base: set<Id>, s: State, t: State)
    requires Explained(edges, f, base, s) && s.walked <= t.walked && t.visited == s.visited && t.discovered == s.discovered
    ensures Explained(edges, f, base, t)
  {
    forall x | x in t.discovered ensures x !in t.visited && HasHop(edges, f, base, t.walked, x) {
      assert HasHop(edges, f, base, s.walked, x);
      var e, n :| n in base && e in s.walked && Hop(edges, f, e, n, x);
    }
  }

  /** What one level keeps about its state. */
  ghost predicate Told(edges: seq<Edge>, q: Query, base: set<Id>, st: State) {
    && Filed(edges, st) && |st.Seen()| == |st.visited| + |st.discovered|
    && Explained(edges, q.filter, base, st) && EndsMet(st) && Honest(edges, q, st)
  }

  lemma {:induction false} DropSteps(edges: seq<Edge>, q: Query, base: set<Id>, st: State, n: Id, e: Edge)
    requires UniqueEdgeIds(edges) && Told(edges, q, base, st) && n in base && base <= st.visited
    requires e in edges && q.filter.Admits(e) && Touches(e, n, q.filter.heading)
    requires |st.walked| + |st.unresolved| >= q.maxEdges && !HasId(st.walked, e.id) && !HasId(st.unresolved, e.id)
    ensures var t := st.(edgesCut := true, blocked := st.blocked + {n});
      Told(edges, q, base, t) && Steps(q, st, t)
  {
    var t := st.(edgesCut := true, blocked := st.blocked + {n});
    assert t.Seen() == st.Seen();
    ExplainedStays(edges, q.filter, base, st, t);
    KnownIsRecorded(edges, st, e);
    assert LeftEdge(edges, q.filter, t, n);
    forall m | m in t.blocked ensures Stopped(edges, q, t, m) || LeftRoot(q, t, m) {
      if m != n { StoppedStays(edges, q, st, t, m); }
    }
  }

  lemma {:induction false} NoteSteps(edges: seq<Edge>, q: Query, st: State, e: Edge)
    requires UniqueEdgeIds(edges) && Filed(edges, st) && e in edges
    requires HasId(st.walked, e.id) || HasId(st.unresolved, e.id) || |st.walked| + |st.unresolved| < q.maxEdges
    ensures var t := Note(st, e);
      && Steps(q, st, t) && Filed(edges, t) && t.Seen() == st.Seen() && t.discovered == st.discovered
      && t.walked <= st.walked + {e} && t.blocked == st.blocked && t.nodesCut == st.nodesCut && t.edgesCut == st.edgesCut
      && (e.Resolved() ==> e in t.walked)
  {
    NoteLeavesNodes(st, e);
    KnownIsRecorded(edges, st, e);
    if e in st.Recorded() {
      NoteKnown(edges, st, e);
    } else {
      NoteNew(edges, st, e);
    }
  }

  lemma {:induction false} HonestStays(edges: seq<Edge>, q: Query, s: State, t: State)
    requires Honest(edges, q, s) && Steps(q, s, t) && t.blocked == s.blocked && (t.Cut() <==> s.Cut())
    ensures Honest(edges, q, t)
  {
    forall m | m in t.blocked ensures Stopped(edges, q, t, m) || LeftRoot(q, t, m) {
      StoppedStays(edges, q, s, t, m);
    }
  }

  /** What recording an edge keeps, before it is followed. */
  ghost predicate Noted(edges: seq<Edge>, q: Query, base: set<Id>, st: State, e: Edge) {
    && Filed(edges, st) && |st.Seen()| == |st.visited| + |st.discovered|
    && Explained(edges, q.filter, base, st) && Honest(edges, q, st)
    && (st.nodesCut || forall d :: d in st.walked && d != e ==> d.Resolved() && d.source in st.Seen() && d.target.id in st.Seen())
    && (e.Resolved() ==> e in st.walked)
  }

  lemma {:induction false} NoteTold(edges: seq<Edge>, q: Query, base: set<Id>, st: State, e: Edge)
    requires UniqueEdgeIds(edges) && Told(edges, q, base, st) && e in edges
    requires HasId(st.walked, e.id) || HasId(st.unresolved, e.id) || |st.walked| + |st.unresolved| < q.maxEdges
    ensures Noted(edges, q, base, Note(st, e), e) && Steps(q, st, Note(st, e)) && Note(st, e).visited == st.visited
  {
    NoteSteps(edges, q, st, e);
    ExplainedStays(edges, q.filter, base, st, Note(st, e));
    HonestStays(edges, q, st, Note(st, e));
  }

  lemma {:induction false} EndsOfTouching(edges: seq<Edge>, f: Filter, e: Edge, n: Id)
    requires e in edges && f.Admits(e) && Touches(e, n, f.heading) && e.Resolved()
    ensures OtherEnd(e, n, f.heading).Some?
    ensures var x := OtherEnd(e, n, f.heading).value;
      Hop(edges, f, e, n, x) && ((e.source == n && e.target.id == x) || (e.source == x && e.target.id == n))
  {
  }

  /** Following an edge from `n`. */
  lemma {:induction false} FollowTold(edges: seq<Edge>, q: Query, base: set<Id>, st: State, n: Id, e: Edge)
    requires Noted(edges, q, base, st, e) && n in base && base <= st.visited
    requires e in edges && q.filter.Admits(e) && Touches(e, n, q.filter.heading)
    ensures var t := Follow(st, n, OtherEnd(e, n, q.filter.heading), q);
      Told(edges, q, base, t) && Steps(q, st, t)
  {
    if e.Resolved() {
      EndsOfTouching(edges, q.filter, e, n);
      var x := OtherEnd(e, n, q.filter.heading).value;
      if x in st.visited || x in st.discovered {
        assert x in st.Seen() && n in st.Seen();
      } else if |st.visited| + |st.discovered| >= q.maxNodes {
        CutTold(edges, q, base, st, n, e, x);
      } else {
        DiscoverTold(edges, q, base, st, n, e, x);
      }
    }
  }

  lemma {:induction false} CutTold(edges: seq<Edge>, q: Query, base: set<Id>, st: State, n: Id, e: Edge, x: Id)
    requires Noted(edges, q, base, st, e) && Hop(edges, q.filter, e, n, x) && x !in st.Seen()
    requires |st.visited| + |st.discovered| >= q.maxNodes
    ensures var t := st.(nodesCut := true, blocked := st.blocked + {n}); Told(edges, q, base, t) && Steps(q, st, t)
  {
    var t := st.(nodesCut := true, blocked := st.blocked + {n});
    assert t.Seen() == st.Seen();
    ExplainedStays(edges, q.filter, base, st, t);
    assert LeftNode(edges, q.filter, t, n);
    forall m | m in t.blocked ensures Stopped(edges, q, t, m) || LeftRoot(q, t, m) {
      if m != n { StoppedStays(edges, q, st, t, m); }
    }
  }

  lemma {:induction false} DiscoverTold(edges: seq<Edge>, q: Query, base: set<Id>, st: State, n: Id, e: Edge, x: Id)
    requires Noted(edges, q, base, st, e) && Hop(edges, q.filter, e, n, x) && x !in st.Seen() && n in base && base <= st.visited
    requires e.Resolved() && ((e.source == n && e.target.id == x) || (e.source == x && e.target.id == n))
    requires |st.visited| + |st.discovered| < q.maxNodes
    ensures var t := st.(discovered := st.discovered + [x]); Told(edges, q, base, t) && Steps(q, st, t)
  {
    var t := st.(discovered := st.discovered + [x]);
    SeenGrows(st, x);
    HonestStays(edges, q, st, t);
    forall y | y in t.discovered ensures y !in t.visited && HasHop(edges, q.filter, base, t.walked, y) {
      if y in st.discovered {
        assert HasHop(edges, q.filter, base, st.walked, y);
      } else {
        assert y == x && Hop(edges, q.filter, e, n, y);
      }
    }
  }

  lemma {:induction false} StepsCompose(q: Query, s: State, m: State, t: State)
    requires Steps(q, s, m) && Steps(q, m, t)
    ensures Steps(q, s, t)
  {
  }

  lemma {:induction false} ExamineTold(edges: seq<Edge>, q: Query, base: set<Id>, st: State, n: Id, e: Edge)
    requires UniqueEdgeIds(edges) && Told(edges, q, base, st) && n in base && base <= st.visited
    requires e in edges && q.filter.Admits(e) && Touches(e, n, q.filter.heading)
    ensures Told(edges, q, base, Examine(st, n, e, q)) && Steps(q, st, Examine(st, n, e, q))
  {
    var known := HasId(st.walked, e.id) || HasId(st.unresolved, e.id);
    if !known && |st.walked| + |st.unresolved| >= q.maxEdges {
      DropSteps(edges, q, base, st, n, e);
    } else {
      NoteTold(edges, q, base, st, e);
      FollowTold(edges, q, base, Note(st, e), n, e);
      StepsCompose(q, st, Note(st, e), Examine(st, n, e, q));
    }
  }

  lemma {:induction false} ExamineAllTold(edges: seq<Edge>, q: Query, base: set<Id>, st: State, n: Id, part: seq<Edge>)
    requires UniqueEdgeIds(edges) && Told(edges, q, base, st) && n in base && base <= st.visited
    requires forall e :: e in part ==> e in edges && q.filter.Admits(e) && Touches(e, n, q.filter.heading)
    ensures Told(edges, q, base, ExamineAll(st, n, part, q)) && Steps(q, st, ExamineAll(st, n, part, q))
  {
    if part != [] {
      var front, e := part[..|part| - 1], part[|part| - 1];
      assert part == front + [e];
      ExamineAllTold(edges, q, base, st, n, front);
      var s := ExamineAll(st, n, front, q);
      ExamineTold(edges, q, base, s, n, e);
      StepsCompose(q, st, s, Examine(s, n, e, q));
    }
  }

  lemma {:induction false} ExpandAllTold(scope: GraphSet, edges: seq<Edge>, q: Query, base: set<Id>, st: State, current: seq<Id>)
    requires Serves(scope, edges, q.filter) && UniqueEdgeIds(edges) && Told(edges, q, base, st) && base <= st.visited
    requires forall n :: n in current ==> n in base
    ensures Told(edges, q, base, ExpandAll(scope, st, current, q)) && Steps(q, st, ExpandAll(scope, st, current, q))
  {
    if current != [] {
      var front, n := current[..|current| - 1], current[|current| - 1];
      assert current == front + [n];
      ExpandAllTold(scope, edges, q, base, st, front);
      var s := ExpandAll(scope, st, front, q);
      assert ServesAt(edges, q.filter, n, Incident(scope, n, q.filter));
      ExamineAllTold(edges, q, base, s, n, Incident(scope, n, q.filter));
      StepsCompose(q, st, s, ExamineAll(s, n, Incident(scope, n, q.filter), q));
    }
  }

  // ---------------------------------------------------------------- whole levels

  ghost predicate LevelTold(edges: seq<Edge>, q: Query, lv: Level) {
    && lv.state.discovered == [] && Told(edges, q, lv.state.visited, lv.state)
    && forall n :: n in lv.current ==> n in lv.state.visited
  }

  lemma {:induction false} StartTold(scope: GraphSet, edges: seq<Edge>, q: Query)
    requires Start(scope, q).Success?
    ensures LevelTold(edges, q, Start(scope, q).value)
  {
    KeptRootsFit(q);
    var st := Start(scope, q).value.state;
    assert st.Seen() == Elements(KeptRoots(q));
    StartHonest(scope, edges, q);
  }

  lemma {:induction false} StartHonest(scope: GraphSet, edges: seq<Edge>, q: Query)
    requires Start(scope, q).Success? && Start(scope, q).value.state.Seen() == Elements(KeptRoots(q))
    ensures Honest(edges, q, Start(scope, q).value.state)
  {
    KeptRootsFit(q);
    var ordered, kept := SortedIds(Elements(q.roots)), KeptRoots(q);
    if |ordered| > q.maxNodes {
      var n := ordered[q.maxNodes];
      assert n in ordered && n !in kept;
      assert LeftRoot(q, Start(scope, q).value.state, n);
    }
  }

  /** What `after` has beyond `before`: each new node lies one recorded hop from an old one. */
  ghost predicate OneMore(edges: seq<Edge>, q: Query, before: State, after: State) {
    && before.visited <= after.visited && before.walked <= after.walked && before.Recorded() <= after.Recorded()
    && (before.Cut() ==> after.Cut())
    && forall x :: x in after.visited && x !in before.visited ==> HasHop(edges, q.filter, before.visited, after.walked, x)
  }

  lemma {:induction false} AdmitTold(edges: seq<Edge>, q: Query, base: set<Id>, t: State)
    requires Told(edges, q, base, t)
    ensures var u := t.(visited := t.Seen(), discovered := []);
      u.Seen() == t.Seen() && Told(edges, q, u.visited, u)
  {
    var u := t.(visited := t.Seen(), discovered := []);
    assert u.Seen() == t.Seen();
    HonestAlike(edges, q, t, u);
  }

  lemma {:induction false} HonestAlike(edges: seq<Edge>, q: Query, t: State, u: State)
    requires Honest(edges, q, t) && u.Seen() == t.Seen() && u.walked == t.walked && u.unresolved == t.unresolved
    requires u.blocked == t.blocked && u.nodesCut == t.nodesCut && u.edgesCut == t.edgesCut
    ensures Honest(edges, q, u)
  {
    forall m | m in u.blocked ensures Stopped(edges, q, u, m) || LeftRoot(q, u, m) {
      assert Stopped(edges, q, t, m) || LeftRoot(q, t, m);
      LeftAlike(edges, q.filter, t, u, m);
    }
  }

  lemma {:induction false} LeftAlike(edges: seq<Edge>, f: Filter, t: State, u: State, m: Id)
    requires u.Seen() == t.Seen() && u.walked == t.walked && u.unresolved == t.unresolved
    ensures LeftNode(edges, f, t, m) ==> LeftNode(edges, f, u, m)
    ensures LeftEdge(edges, f, t, m) ==> LeftEdge(edges, f, u, m)
  {
  }

  lemma {:induction false} AdvanceTold(scope: GraphSet, edges: seq<Edge>, q: Query, k: nat, lv: Level)
    requires Serves(scope, edges, q.filter) && UniqueEdgeIds(edges) && LevelTold(edges, q, lv)
    requires Advance(scope, lv, k, q).Success?
    ensures var next := Advance(scope, lv, k, q).value;
      && LevelTold(edges, q, next) && OneMore(edges, q, lv.state, next.state)
      && next.reached == (if next.current != [] then k else lv.reached)
      && (next.current == [] ==> next.state.visited == lv.state.visited)
      && (next.current != [] ==> next.state.visited != lv.state.visited)
  {
    var st := lv.state;
    var t := ExpandAll(scope, st, lv.current, q);
    ExpandAllTold(scope, edges, q, st.visited, st, lv.current);
    AdmitTold(edges, q, st.visited, t);
    var u := t.(visited := t.Seen(), discovered := []);
    forall x | x in u.visited && x !in st.visited ensures HasHop(edges, q.filter, st.visited, u.walked, x) {
      assert x in Elements(t.discovered);
    }
    forall n | n in t.discovered ensures n in u.visited {
      assert n in Elements(t.discovered);
    }
    if t.discovered != [] { assert t.discovered[0] in t.discovered; }
  }

  /** The depth a walk is asked for does not change its first levels. */
  lemma {:induction false} LevelsIgnoreDepth(scope: GraphSet, q: Query, depth: nat, k: nat)
    ensures Levels(scope, q.(depth := depth), k) == Levels(scope, q, k)
    decreases k
  {
    if k > 0 {
      LevelsIgnoreDepth(scope, q, depth, k - 1);
      UnfoldLevel(scope, q, k);
      UnfoldLevel(scope, q.(depth := depth), k);
      var before := Levels(scope, q, k - 1);
      if before.Success? { AdvanceIgnoresDepth(scope, q, depth, before.value, k); }
    }
  }

  lemma {:induction false} AdvanceIgnoresDepth(scope: GraphSet, q: Query, depth: nat, lv: Level, k: nat)
    ensures Advance(scope, lv, k, q.(depth := depth)) == Advance(scope, lv, k, q)
  {
    ExpandIgnoresDepth(scope, q, depth, lv.state, lv.current);
  }

  lemma {:induction false} ExpandIgnoresDepth(scope: GraphSet, q: Query, depth: nat, st: State, current: seq<Id>)
    ensures ExpandAll(scope, st, current, q.(depth := depth)) == ExpandAll(scope, st, current, q)
  {
    if current != [] {
      var front, n := current[..|current| - 1], current[|current| - 1];
      ExpandIgnoresDepth(scope, q, depth, st, front);
      ExamineIgnoresDepth(q, depth, ExpandAll(scope, st, front, q), n, Incident(scope, n, q.filter));
    }
  }

  lemma {:induction false} ExamineIgnoresDepth(q: Query, depth: nat, st: State, n: Id, part: seq<Edge>)
    ensures ExamineAll(st, n, part, q.(depth := depth)) == ExamineAll(st, n, part, q)
  {
    if part != [] { ExamineIgnoresDepth(q, depth, st, n, part[..|part| - 1]); }
  }

  /** The level reached is the last to bring a node, and it bounds how far the nodes lie. */
  ghost predicate ReachedTold(edges: seq<Edge>, q: Query, k: nat, lv: Level) {
    && lv.reached <= k
    && lv.state.visited <= Ball(edges, q.filter, Elements(q.roots), lv.reached)
    && (!lv.state.Cut() && lv.reached > 0 ==>
          Ball(edges, q.filter, Elements(q.roots), lv.reached) != Ball(edges, q.filter, Elements(q.roots), lv.reached - 1))
  }

  lemma {:induction false} LevelsTold(scope: GraphSet, edges: seq<Edge>, q: Query, k: nat)
    requires Serves(scope, edges, q.filter) && UniqueEdgeIds(edges) && Levels(scope, q, k).Success?
    ensures LevelTold(edges, q, Levels(scope, q, k).value)
  {
    if k == 0 {
      StartTold(scope, edges, q);
    } else {
      UnfoldLevel(scope, q, k);
      LevelsTold(scope, edges, q, k - 1);
      AdvanceTold(scope, edges, q, k, Levels(scope, q, k - 1).value);
    }
  }

  lemma {:induction false} LevelInBall(scope: GraphSet, edges: seq<Edge>, q: Query, k: nat)
    requires Serves(scope, edges, q.filter) && UniqueEdgeIds(edges) && Levels(scope, q, k).Success?
    ensures var st := Levels(scope, q, k).value.state;
      var ball := Ball(edges, q.filter, Elements(q.roots), k);
      st.visited <= ball && (!st.Cut() ==> st.visited == ball)
  {
    LevelsComplete(scope, edges, q, k);
    var st := Levels(scope, q, k).value.state;
    assert st.visited <= st.Seen();
  }

  lemma {:induction false} ReachedNext(edges: seq<Edge>, q: Query, k: nat, lv: Level, next: Level, inner: set<Id>, outer: set<Id>)
    requires k > 0 && ReachedTold(edges, q, k - 1, lv)
    requires inner == Ball(edges, q.filter, Elements(q.roots), k - 1) && outer == Ball(edges, q.filter, Elements(q.roots), k)
    requires next.state.visited <= outer && (!lv.state.Cut() ==> lv.state.visited == inner)
    requires lv.state.visited <= next.state.visited && (lv.state.Cut() ==> next.state.Cut())
    requires if next.current != [] then next.reached == k && next.state.visited != lv.state.visited
             else next.reached == lv.reached && next.state.visited == lv.state.visited
    ensures ReachedTold(edges, q, k, next)
  {
    if next.current != [] && !next.state.Cut() {
      var x :| x in next.state.visited && x !in lv.state.visited;
      assert x in outer && x !in inner;
    }
  }

  lemma {:induction false} ReachedFirst(scope: GraphSet, edges: seq<Edge>, q: Query)
    requires Serves(scope, edges, q.filter) && UniqueEdgeIds(edges) && Levels(scope, q, 0).Success?
    ensures ReachedTold(edges, q, 0, Levels(scope, q, 0).value)
  {
    LevelInBall(scope, edges, q, 0);
    assert Levels(scope, q, 0) == Start(scope, q);
  }

  lemma {:induction false} LevelsReached(scope: GraphSet, edges: seq<Edge>, q: Query, k: nat)
    requires Serves(scope, edges, q.filter) && UniqueEdgeIds(edges) && Levels(scope, q, k).Success?
    ensures ReachedTold(edges, q, k, Levels(scope, q, k).value)
    decreases k
  {
    if k == 0 {
      ReachedFirst(scope, edges, q);
    } else {
      UnfoldLevel(scope, q, k);
      LevelsReached(scope, edges, q, k - 1);
      ReachedAfter(scope, edges, q, k, Levels(scope, q, k - 1).value, Levels(scope, q, k).value);
    }
  }

  lemma {:induction false} ReachedAfter(scope: GraphSet, edges: seq<Edge>, q: Query, k: nat, lv: Level, next: Level)
    requires k > 0 && Serves(scope, edges, q.filter) && UniqueEdgeIds(edges)
    requires Levels(scope, q, k - 1) == Success(lv) && Levels(scope, q, k) == Success(next) && Advance(scope, lv, k, q) == Success(next)
    requires ReachedTold(edges, q, k - 1, lv)
    ensures ReachedTold(edges, q, k, next)
  {
    LevelInBall(scope, edges, q, k);
    LevelInBall(scope, edges, q, k - 1);
    LevelAdvances(scope, edges, q, k, lv, next);
    ReachedNext(edges, q, k, lv, next,
                Ball(edges, q.filter, Elements(q.roots), k - 1), Ball(edges, q.filter, Elements(q.roots), k));
  }

  lemma {:induction false} LevelAdvances(scope: GraphSet, edges: seq<Edge>, q: Query, k: nat, lv: Level, next: Level)
    requires k > 0 && Serves(scope, edges, q.filter) && UniqueEdgeIds(edges)
    requires Levels(scope, q, k - 1) == Success(lv) && Advance(scope, lv, k, q) == Success(next)
    ensures lv.state.visited <= next.state.visited && (lv.state.Cut() ==> next.state.Cut())
    ensures next.reached == (if next.current != [] then k else lv.reached)
    ensures next.current == [] <==> next.state.visited == lv.state.visited
  {
    LevelsTold(scope, edges, q, k - 1);
    AdvanceTold(scope, edges, q, k, lv);
  }

  // ---------------------------------------------------------------- the walk

  /** Why a walk names `n` in its frontier. */
  ghost predicate StoppedAt(edges: seq<Edge>, q: Query, w: Walk, n: Id) {
    || (|w.nodes| == q.maxNodes && n in Elements(q.roots) && n !in w.nodes)
    || (|w.edges| + |w.unresolved| == q.maxEdges
        && exists e :: e in edges && q.filter.Admits(e) && Touches(e, n, q.filter.heading) && e !in w.edges + w.unresolved)
    || (|w.nodes| == q.maxNodes && exists e, x :: Hop(edges, q.filter, e, n, x) && x !in w.nodes)
  }

  lemma {:induction false} StoppedIsStoppedAt(edges: seq<Edge>, q: Query, st: State, w: Walk, n: Id)
    requires w.nodes == st.Seen() && w.edges == st.walked && w.unresolved == st.unresolved
    requires |w.nodes| <= q.maxNodes && |w.edges| + |w.unresolved| <= q.maxEdges
    requires Stopped(edges, q, st, n) || LeftRoot(q, st, n)
    ensures StoppedAt(edges, q, w, n)
  {
  }

  /**
    A walk has a frontier exactly when it is truncated, and each node of it is a root that did not
    fit, or one at which an edge was left for want of edges or a neighbour for want of nodes.
  */
  lemma {:induction false} FrontierIsHonest(scope: GraphSet, q: Query)
    requires scope.Valid() && UniqueEdgeIds(scope.Edges()) && WalkOf(scope, q).Success?
    ensures WalkOf(scope, q).value.frontier == {} <==> !WalkOf(scope, q).value.Truncated()
    ensures forall n :: n in WalkOf(scope, q).value.frontier ==> StoppedAt(scope.Edges(), q, WalkOf(scope, q).value, n)
  {
    ScopeServes(scope, q.filter);
    WalkIsExact(scope, q);
    LevelsTold(scope, scope.Edges(), q, q.depth);
    var w, st := WalkOf(scope, q).value, Levels(scope, q, q.depth).value.state;
    assert st.Seen() == st.visited;
    forall n | n in w.frontier ensures StoppedAt(scope.Edges(), q, w, n) {
      StoppedIsStoppedAt(scope.Edges(), q, st, w, n);
    }
  }

  /** All nodes lie within the depth reached; untruncated, that is the distance of the farthest. */
  lemma {:induction false} DepthReachedIsExact(scope: GraphSet, q: Query)
    requires scope.Valid() && UniqueEdgeIds(scope.Edges()) && WalkOf(scope, q).Success?
    ensures var w := WalkOf(scope, q).value;
      var edges, f, roots := scope.Edges(), q.filter, Elements(q.roots);
      && w.depthReached <= q.depth && w.nodes <= Ball(edges, f, roots, w.depthReached)
      && (!w.Truncated() ==> w.nodes == Ball(edges, f, roots, w.depthReached))
      && (!w.Truncated() && w.depthReached > 0 ==>
            Ball(edges, f, roots, w.depthReached) != Ball(edges, f, roots, w.depthReached - 1))
  {
    ScopeServes(scope, q.filter);
    LevelsReached(scope, scope.Edges(), q, q.depth);
    LevelInBall(scope, scope.Edges(), q, q.depth);
    BallGrows(scope.Edges(), q.filter, Elements(q.roots), WalkOf(scope, q).value.depthReached, q.depth);
  }

  /**
    One level more: the deeper walk keeps all of the other, each node it adds lies one recorded hop
    from a node of the other, and, unless nodes were cut, both ends of each recorded edge are nodes.
  */
  lemma {:induction false} DeeperWalk(scope: GraphSet, q: Query)
    requires scope.Valid() && UniqueEdgeIds(scope.Edges())
    requires WalkOf(scope, q).Success? && WalkOf(scope, q.(depth := q.depth + 1)).Success?
    ensures var w, p := WalkOf(scope, q).value, WalkOf(scope, q.(depth := q.depth + 1)).value;
      && w.nodes <= p.nodes && w.edges <= p.edges && w.edges + w.unresolved <= p.edges + p.unresolved
      && (forall x :: x in p.nodes && x !in w.nodes ==> HasHop(scope.Edges(), q.filter, w.nodes, p.edges, x))
      && (p.nodesCut || forall e :: e in p.edges ==> e.Resolved() && e.source in p.nodes && e.target.id in p.nodes)
  {
    var edges, deep := scope.Edges(), q.(depth := q.depth + 1);
    ScopeServes(scope, q.filter);
    LevelsIgnoreDepth(scope, q, deep.depth, deep.depth);
    UnfoldLevel(scope, q, deep.depth);
    LevelsTold(scope, edges, q, q.depth);
    NextTold(scope, edges, q, deep.depth, Levels(scope, q, q.depth).value);
  }

  lemma {:induction false} NextTold(scope: GraphSet, edges: seq<Edge>, q: Query, k: nat, lv: Level)
    requires Serves(scope, edges, q.filter) && UniqueEdgeIds(edges) && LevelTold(edges, q, lv)
    requires Advance(scope, lv, k, q).Success?
    ensures var st, t := lv.state, Advance(scope, lv, k, q).value.state;
      && st.visited <= t.visited && st.walked <= t.walked && st.Recorded() <= t.Recorded()
      && (forall x :: x in t.visited && x !in st.visited ==> HasHop(edges, q.filter, st.visited, t.walked, x))
      && (t.nodesCut || forall e :: e in t.walked ==> e.Resolved() && e.source in t.visited && e.target.id in t.visited)
  {
    AdvanceTold(scope, edges, q, k, lv);
    var t := Advance(scope, lv, k, q).value.state;
    assert t.Seen() == t.visited;
  }
}
