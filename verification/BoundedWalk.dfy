/** The breadth-first walk bounded by depth, node count and edge count. */
module Walks {
  import opened Ordering
  import opened Wrappers
  import opened GraphModel
  import opened Incidence
  import opened Traversal

  datatype Query = Query(roots: seq<Id>, depth: nat, filter: Filter, maxNodes: nat, maxEdges: nat)

  /**
    The answer. Its tuples are sorted by distinct ids, so sets of them say the same.
    `reasons` is the pair of flags: `max_nodes` and `max_edges`.
  */
  datatype Walk = Walk(
    nodes: set<Id>, edges: set<Edge>, unresolved: set<Edge>, depthReached: nat,
    nodesCut: bool, edgesCut: bool, frontier: set<Id>)
  {
    predicate Truncated() { nodesCut || edgesCut }
  }

  /** The search fails only by meeting a node id the scope does not pin. */
  type Outcome<T> = Result<T, Id>

  /**
    The walk's local variables. The dictionaries `walked` and `unresolved` map an edge's own id to
    the edge, so each is the set of its values, no two of which share an id.
  */
  datatype State = State(
    visited: set<Id>, discovered: seq<Id>, walked: set<Edge>, unresolved: set<Edge>,
    nodesCut: bool, edgesCut: bool, blocked: set<Id>)
  {
    function Seen(): set<Id> { visited + Elements(discovered) }
    function Recorded(): set<Edge> { walked + unresolved }
    predicate Cut() { nodesCut || edgesCut }
  }

  datatype Level = Level(state: State, current: seq<Id>, reached: nat)

  // ---------------------------------------------------------------- the walk as a function

  predicate HasId(s: set<Edge>, id: Id) {
    exists e :: e in s && e.id == id
  }

  function SetDefault(s: set<Edge>, e: Edge): set<Edge> {
    if HasId(s, e.id) then s else s + {e}
  }

  function Note(st: State, e: Edge): State {
    if e.Resolved() then st.(walked := SetDefault(st.walked, e))
    else st.(unresolved := SetDefault(st.unresolved, e))
  }

  function Follow(st: State, n: Id, other: Option<Id>, q: Query): State {
    match other
    case None => st
    case Some(far) =>
      if far in st.visited || far in st.discovered then st
      else if |st.visited| + |st.discovered| >= q.maxNodes then
        st.(nodesCut := true, blocked := st.blocked + {n})
      else st.(discovered := st.discovered + [far])
  }

  /** One edge examined from one node. */
  function Examine(st: State, n: Id, e: Edge, q: Query): State {
    var known := HasId(st.walked, e.id) || HasId(st.unresolved, e.id);
    if !known && |st.walked| + |st.unresolved| >= q.maxEdges then
      st.(edgesCut := true, blocked := st.blocked + {n})
    else Follow(Note(st, e), n, OtherEnd(e, n, q.filter.heading), q)
  }

  function ExamineAll(st: State, n: Id, edges: seq<Edge>, q: Query): State {
    if edges == [] then st
    else Examine(ExamineAll(st, n, edges[..|edges| - 1], q), n, edges[|edges| - 1], q)
  }

  function ExpandAll(scope: GraphSet, st: State, current: seq<Id>, q: Query): State {
    if current == [] then st
    else
      var n := current[|current| - 1];
      ExamineAll(ExpandAll(scope, st, current[..|current| - 1], q), n, Incident(scope, n, q.filter), q)
  }

  function FirstUnpinned(nodes: map<Id, Node>, ids: seq<Id>): (r: Option<Id>)
    ensures r.Some? ==> r.value in ids && r.value !in nodes
    ensures r.None? ==> forall id :: id in ids ==> id in nodes
  {
    if ids == [] then None
    else if ids[0] !in nodes then Some(ids[0])
    else FirstUnpinned(nodes, ids[1..])
  }

  /** The roots that fit the node budget, sorted. */
  function KeptRoots(q: Query): seq<Id> {
    var ordered := SortedIds(Elements(q.roots));
    if |ordered| > q.maxNodes then ordered[..q.maxNodes] else ordered
  }

  function Start(scope: GraphSet, q: Query): Outcome<Level> {
    var ordered := SortedIds(Elements(q.roots));
    var kept := KeptRoots(q);
    var cut := |ordered| > q.maxNodes;
    match FirstUnpinned(scope.nodes, kept)
    case Some(id) => Failure(id)
    case None =>
      Success(Level(
        State(Elements(kept), [], {}, {}, cut, false, if cut then {ordered[q.maxNodes]} else {}),
        kept, 0))
  }

  /** One level: expand every current node, then admit what was discovered. */
  function Advance(scope: GraphSet, lv: Level, k: nat, q: Query): Outcome<Level> {
    var st := ExpandAll(scope, lv.state, lv.current, q);
    match FirstUnpinned(scope.nodes, st.discovered)
    case Some(id) => Failure(id)
    case None =>
      Success(Level(
        st.(visited := st.Seen(), discovered := []), st.discovered,
        if st.discovered != [] then k else lv.reached))
  }

  function Levels(scope: GraphSet, q: Query, k: nat): Outcome<Level> {
    if k == 0 then Start(scope, q)
    else
      var lv :- Levels(scope, q, k - 1);
      Advance(scope, lv, k, q)
  }

  function WalkOf(scope: GraphSet, q: Query): Outcome<Walk> {
    var lv :- Levels(scope, q, q.depth);
    var st := lv.state;
    Success(Walk(st.visited, st.walked, st.unresolved, lv.reached, st.nodesCut, st.edgesCut, st.blocked))
  }

  // ---------------------------------------------------------------- the walk as the source runs it

  /** Admits the sorted roots one by one while the node budget lasts. */
  method Roots(scope: GraphSet, q: Query) returns (r: Outcome<Level>)
    ensures r == Start(scope, q)
  {
    var ordered, kept := SortedIds(Elements(q.roots)), KeptRoots(q);
    var visited: set<Id> := {};
    for i := 0 to |kept|
      invariant visited == Elements(kept[..i])
      invariant FirstUnpinned(scope.nodes, kept[..i]).None?
    {
      var id := kept[i];
      if id !in scope.nodes {
        FirstUnpinnedAt(scope.nodes, kept, i);
        return Failure(id);
      }
      FirstUnpinnedPrefix(scope.nodes, kept, i);
      PrefixElements(kept, i);
      visited := visited + {id};
    }
    assert kept[..|kept|] == kept;
    var cut := |kept| < |ordered|;
    return Success(Level(
      State(visited, [], {}, {}, cut, false, if cut then {ordered[|kept|]} else {}), kept, 0));
  }

  lemma {:induction false} PrefixElements(ids: seq<Id>, i: nat)
    requires i < |ids|
    ensures Elements(ids[..i + 1]) == Elements(ids[..i]) + {ids[i]}
  {
    assert ids[..i + 1] == ids[..i] + [ids[i]];
  }

  lemma {:induction false} FirstUnpinnedPrefix(nodes: map<Id, Node>, ids: seq<Id>, i: nat)
    requires i < |ids| && FirstUnpinned(nodes, ids[..i]).None?
    ensures FirstUnpinned(nodes, ids[..i + 1]) == if ids[i] in nodes then None else Some(ids[i])
  {
    if i > 0 {
      assert ids[..i][1..] == ids[1..][..i - 1] && ids[..i + 1][1..] == ids[1..][..i];
      FirstUnpinnedPrefix(nodes, ids[1..], i - 1);
    }
  }

  lemma {:induction false} FirstUnpinnedAt(nodes: map<Id, Node>, ids: seq<Id>, i: nat)
    requires i < |ids| && ids[i] !in nodes && forall id :: id in ids[..i] ==> id in nodes
    ensures FirstUnpinned(nodes, ids) == Some(ids[i])
  {
    if i > 0 {
      assert ids[0] == ids[..i][0];
      assert forall id :: id in ids[1..][..i - 1] ==> id in ids[..i];
      FirstUnpinnedAt(nodes, ids[1..], i - 1);
    }
  }

  /** From an empty frontier the remaining levels change nothing: stopping early is the same. */
  lemma {:induction false} NothingLeft(scope: GraphSet, q: Query, j: nat, k: nat)
    requires j <= k
    requires Levels(scope, q, j).Success? && Levels(scope, q, j).value.current == []
    requires Levels(scope, q, j).value.state.discovered == []
    ensures Levels(scope, q, k) == Levels(scope, q, j)
    decreases k
  {
    if j < k {
      NothingLeft(scope, q, j, k - 1);
      var st := Levels(scope, q, j).value.state;
      assert st.visited == st.Seen();
    }
  }

  lemma {:induction false} FailureSticks(scope: GraphSet, q: Query, j: nat, k: nat)
    requires j <= k && Levels(scope, q, j).Failure?
    ensures Levels(scope, q, k).Failure? && Levels(scope, q, k).error == Levels(scope, q, j).error
    decreases k
  {
    if j < k { FailureSticks(scope, q, j, k - 1); }
  }

  lemma {:induction false} NothingPending(scope: GraphSet, q: Query, k: nat)
    requires Levels(scope, q, k).Success?
    ensures Levels(scope, q, k).value.state.discovered == []
  {
  }

  method ExpandNode(before: State, n: Id, edges: seq<Edge>, q: Query) returns (st: State)
    ensures st == ExamineAll(before, n, edges, q)
  {
    st := before;
    for j := 0 to |edges|
      invariant st == ExamineAll(before, n, edges[..j], q)
    {
      assert edges[..j + 1][..j] == edges[..j];
      st := Examine(st, n, edges[j], q);
    }
    assert edges[..|edges|] == edges;
  }

  method ExpandLevel(scope: GraphSet, before: State, current: seq<Id>, q: Query) returns (st: State)
    ensures st == ExpandAll(scope, before, current, q)
  {
    st := before;
    for i := 0 to |current|
      invariant st == ExpandAll(scope, before, current[..i], q)
    {
      st := ExpandNode(st, current[i], Incident(scope, current[i], q.filter), q);
      assert current[..i + 1][..i] == current[..i];
    }
    assert current[..|current|] == current;
  }

  method AdvanceLevel(scope: GraphSet, lv: Level, k: nat, q: Query) returns (r: Outcome<Level>)
    ensures r == Advance(scope, lv, k, q)
  {
    var st := ExpandLevel(scope, lv.state, lv.current, q);
    var missing := FirstUnpinned(scope.nodes, st.discovered);
    if missing.Some? { return Failure(missing.value); }
    var reached := lv.reached;
    if st.discovered != [] { reached := k; }
    return Success(Level(st.(visited := st.Seen(), discovered := []), st.discovered, reached));
  }

  method BoundedWalk(scope: GraphSet, q: Query) returns (r: Outcome<Walk>)
    ensures r == WalkOf(scope, q)
  {
    var lv := Roots(scope, q);
    var level := 0;
    while level < q.depth && lv.Success? && lv.value.current != []
      invariant 0 <= level <= q.depth && lv == Levels(scope, q, level)
    {
      level := level + 1;
      lv := AdvanceLevel(scope, lv.value, level, q);
    }
    if lv.Failure? {
      FailureSticks(scope, q, level, q.depth);
      return Failure(lv.error);
    }
    NothingPending(scope, q, level);
    if level < q.depth { NothingLeft(scope, q, level, q.depth); }
    var st := lv.value.state;
    return Success(Walk(st.visited, st.walked, st.unresolved, lv.value.reached, st.nodesCut, st.edgesCut, st.blocked));
  }
}
