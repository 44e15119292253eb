/** The levelled search behind `path`: its state, one step of it, and what every step keeps. */
module PathSearch {
  import opened Ordering
  import opened Wrappers
  import opened GraphModel
  import opened Incidence
  import opened Traversal

  datatype Link = Link(previous: Id, edge: Edge)

  type Parents = map<Id, Option<Link>>

  /** The search's local variables; `parent` of the start is `None`. */
  datatype Search = Search(
    parent: Parents, visited: seq<Id>, seen: set<Id>, unresolved: set<Edge>, next: seq<Id>,
    found: bool, nodesCut: bool, edgesCut: bool)
  {
    predicate Exhausted() { nodesCut || edgesCut }
    predicate Stopped() { found || Exhausted() }
  }

  datatype Task = Task(start: Id, goal: Id, filter: Filter, hops: nat, nodeBudget: nat, edgeBudget: nat)

  function Adopt(s: Search, n: Id, e: Edge, far: Id): Search {
    s.(parent := s.parent[far := Some(Link(n, e))], visited := s.visited + [far])
  }

  /** One edge examined from one node, as the innermost loop does it. */
  function ScanEdge(s: Search, n: Id, e: Edge, task: Task): Search {
    if e.id in s.seen then s
    else if |s.seen| >= task.edgeBudget then s.(edgesCut := true)
    else
      var t := s.(seen := s.seen + {e.id});
      if !e.Resolved() then t.(unresolved := t.unresolved + {e})
      else if |s.visited| >= task.nodeBudget then t.(nodesCut := true)
      else match OtherEnd(e, n, task.filter.heading)
        case None => t
        case Some(far) =>
          if far == task.goal then Adopt(t, n, e, far).(found := true)
          else if far in t.parent then t
          else Adopt(t, n, e, far).(next := t.next + [far])
  }

  // ---------------------------------------------------------------- the search tree

  type Depths = map<Id, nat>

  /** `n` hangs below its parent by one admitted hop, one level deeper. */
  ghost predicate Hangs(edges: seq<Edge>, f: Filter, parent: Parents, depth: Depths, n: Id)
    requires n in parent && depth.Keys == parent.Keys
  {
    && parent[n].Some?
    && parent[n].value.previous in parent
    && Hop(edges, f, parent[n].value.edge, parent[n].value.previous, n)
    && depth[n] == depth[parent[n].value.previous] + 1
  }

  ghost predicate Tree(edges: seq<Edge>, f: Filter, start: Id, parent: Parents, depth: Depths) {
    && depth.Keys == parent.Keys
    && start in parent && parent[start].None? && depth[start] == 0
    && forall n :: n in parent && n != start ==> Hangs(edges, f, parent, depth, n)
  }

  lemma {:induction false} AdoptKeepsTree(edges: seq<Edge>, f: Filter, start: Id, parent: Parents, depth: Depths, n: Id, e: Edge, far: Id)
    requires Tree(edges, f, start, parent, depth) && n in parent && far !in parent
    requires Hop(edges, f, e, n, far)
    ensures Tree(edges, f, start, parent[far := Some(Link(n, e))], depth[far := depth[n] + 1])
  {
    var p, d := parent[far := Some(Link(n, e))], depth[far := depth[n] + 1];
    forall m | m in p && m != start ensures Hangs(edges, f, p, d, m) {
      if m != far { assert Hangs(edges, f, parent, depth, m); }
    }
  }

  // ---------------------------------------------------------------- finished nodes

  /** Seen from `n`, the edge leads nowhere new: its far end is known, no deeper than one more level. */
  ghost predicate Settled(s: Search, depth: Depths, f: Filter, n: Id, e: Edge)
    requires n in depth
  {
    && e.id in s.seen
    && (!e.Resolved() ==> e in s.unresolved)
    && (e.Resolved() ==>
          var far := OtherEnd(e, n, f.heading);
          far.Some? ==> far.value in depth && depth[far.value] <= depth[n] + 1)
  }

  ghost predicate Finished(edges: seq<Edge>, f: Filter, s: Search, depth: Depths, n: Id)
    requires n in depth
  {
    forall e :: e in edges && f.Admits(e) && Touches(e, n, f.heading) ==> Settled(s, depth, f, n, e)
  }

  /** Later states know at least as much: more edges seen, more nodes reached, old depths kept. */
  ghost predicate Extends(s: Search, depth: Depths, t: Search, deeper: Depths) {
    && s.seen <= t.seen && s.unresolved <= t.unresolved
    && forall n :: n in depth ==> n in deeper && deeper[n] == depth[n]
  }

  lemma {:induction false} FinishedStays(edges: seq<Edge>, f: Filter, s: Search, depth: Depths, t: Search, deeper: Depths, n: Id)
    requires n in depth && Extends(s, depth, t, deeper) && Finished(edges, f, s, depth, n)
    ensures n in deeper && Finished(edges, f, t, deeper, n)
  {
    forall e | e in edges && f.Admits(e) && Touches(e, n, f.heading) ensures Settled(t, deeper, f, n, e) {
      assert Settled(s, depth, f, n, e);
    }
  }

  /** Every edge already seen has both its ends in the tree. */
  ghost predicate SeenInside(edges: seq<Edge>, f: Filter, s: Search, depth: Depths) {
    forall e :: e in edges && f.Admits(e) && e.id in s.seen ==>
      && (!e.Resolved() ==> e in s.unresolved)
      && (e.Resolved() ==> e.source in depth && e.target.id in depth)
  }

  // ---------------------------------------------------------------- the invariant

  /** While level `level` is scanned: who is at which depth. */
  ghost predicate Layered(task: Task, s: Search, depth: Depths, level: nat) {
    && depth.Keys == s.parent.Keys
    && (forall n :: n in depth ==> depth[n] <= level)
    && (forall n :: n in depth && depth[n] == level ==> n in s.next || n == task.goal)
    && (forall n :: n in s.next ==> n in depth && depth[n] == level)
    && (task.goal in depth <==> s.found)
    && (s.found ==> depth[task.goal] == level)
  }

  ghost predicate Noted(edges: seq<Edge>, f: Filter, s: Search) {
    && Elements(s.visited) == s.parent.Keys
    && forall e :: e in s.unresolved ==>
         e in edges && f.Admits(e) && !e.Resolved() && f.heading != Incoming && e.source in s.parent
  }

  /** The nodes above the scanned level are finished, except those still pending. */
  ghost predicate AboveFinished(edges: seq<Edge>, f: Filter, s: Search, depth: Depths, level: nat, pending: set<Id>) {
    && (forall n :: n in pending ==> n in depth && depth[n] + 1 == level)
    && (forall n :: n in depth && depth[n] < level && n !in pending ==> Finished(edges, f, s, depth, n))
  }

  ghost predicate Scanning(edges: seq<Edge>, task: Task, s: Search, depth: Depths, level: nat, pending: set<Id>) {
    && task.start != task.goal
    && Tree(edges, task.filter, task.start, s.parent, depth)
    && Layered(task, s, depth, level)
    && Noted(edges, task.filter, s)
    && (!s.nodesCut ==> SeenInside(edges, task.filter, s, depth))
    && AboveFinished(edges, task.filter, s, depth, level, pending)
  }

  lemma {:induction false} AboveStays(
    edges: seq<Edge>, f: Filter, s: Search, depth: Depths, t: Search, deeper: Depths, level: nat, pending: set<Id>)
    requires AboveFinished(edges, f, s, depth, level, pending) && Extends(s, depth, t, deeper)
    requires forall n :: n in deeper && n !in depth ==> deeper[n] == level
    ensures AboveFinished(edges, f, t, deeper, level, pending)
  {
    forall n | n in deeper && deeper[n] < level && n !in pending ensures Finished(edges, f, t, deeper, n) {
      FinishedStays(edges, f, s, depth, t, deeper, n);
    }
  }

  // ---------------------------------------------------------------- one step

  /** What one step from a pending node establishes about the edge it examined. */
  ghost predicate Stepped(
    edges: seq<Edge>, task: Task, s: Search, depth: Depths, level: nat, pending: set<Id>, n: Id, e: Edge,
    t: Search, deeper: Depths)
    requires n in deeper
  {
    && Scanning(edges, task, t, deeper, level, pending)
    && Extends(s, depth, t, deeper)
    && (t.Stopped() || Settled(t, deeper, task.filter, n, e))
  }

  /** An edge seen before: both its ends are in the tree already. */
  lemma {:induction false} StepSeen(edges: seq<Edge>, task: Task, s: Search, depth: Depths, level: nat, pending: set<Id>, n: Id, e: Edge)
    requires Scanning(edges, task, s, depth, level, pending) && !s.Stopped() && n in pending
    requires e in edges && task.filter.Admits(e) && Touches(e, n, task.filter.heading) && e.id in s.seen
    ensures Stepped(edges, task, s, depth, level, pending, n, e, s, depth)
  {
  }

  lemma {:induction false} StepEdgeCut(edges: seq<Edge>, task: Task, s: Search, depth: Depths, level: nat, pending: set<Id>, n: Id, e: Edge)
    requires Scanning(edges, task, s, depth, level, pending) && !s.Stopped() && n in pending && |s.seen| >= task.edgeBudget
    ensures Stepped(edges, task, s, depth, level, pending, n, e, s.(edgesCut := true), depth)
  {
    AboveStays(edges, task.filter, s, depth, s.(edgesCut := true), depth, level, pending);
  }

  /** Marking one more edge seen, whose ends the tree holds, keeps every seen edge inside the tree. */
  lemma {:induction false} SeeOneMore(edges: seq<Edge>, f: Filter, s: Search, depth: Depths, e: Edge, t: Search, deeper: Depths)
    requires UniqueEdgeIds(edges) && SeenInside(edges, f, s, depth) && e in edges
    requires t.seen == s.seen + {e.id} && Extends(s, depth, t, deeper)
    requires if e.Resolved() then e.source in deeper && e.target.id in deeper else e in t.unresolved
    ensures SeenInside(edges, f, t, deeper)
  {
    forall d | d in edges && f.Admits(d) && d.id in t.seen && d != e
      ensures !d.Resolved() ==> d in t.unresolved
      ensures d.Resolved() ==> d.source in deeper && d.target.id in deeper
    {
      assert d.id in s.seen;
    }
  }

  lemma {:induction false} StepUnresolved(edges: seq<Edge>, task: Task, s: Search, depth: Depths, level: nat, pending: set<Id>, n: Id, e: Edge)
    requires Scanning(edges, task, s, depth, level, pending) && !s.Stopped() && n in pending && UniqueEdgeIds(edges)
    requires e in edges && task.filter.Admits(e) && Touches(e, n, task.filter.heading) && !e.Resolved()
    ensures Stepped(edges, task, s, depth, level, pending, n, e,
      s.(seen := s.seen + {e.id}, unresolved := s.unresolved + {e}), depth)
  {
    var t := s.(seen := s.seen + {e.id}, unresolved := s.unresolved + {e});
    AboveStays(edges, task.filter, s, depth, t, depth, level, pending);
    SeeOneMore(edges, task.filter, s, depth, e, t, depth);
  }

  lemma {:induction false} StepNodeCut(edges: seq<Edge>, task: Task, s: Search, depth: Depths, level: nat, pending: set<Id>, n: Id, e: Edge)
    requires Scanning(edges, task, s, depth, level, pending) && !s.Stopped() && n in pending && |s.visited| >= task.nodeBudget
    ensures Stepped(edges, task, s, depth, level, pending, n, e, s.(seen := s.seen + {e.id}, nodesCut := true), depth)
  {
    AboveStays(edges, task.filter, s, depth, s.(seen := s.seen + {e.id}, nodesCut := true), depth, level, pending);
  }

  lemma {:induction false} HopEnds(edges: seq<Edge>, f: Filter, e: Edge, n: Id, far: Id)
    requires Hop(edges, f, e, n, far)
    ensures e.Resolved() && ((e.source == n && e.target.id == far) || (e.source == far && e.target.id == n))
  {
  }

  lemma {:induction false} StepKnown(edges: seq<Edge>, task: Task, s: Search, depth: Depths, level: nat, pending: set<Id>, n: Id, e: Edge, far: Id)
    requires Scanning(edges, task, s, depth, level, pending) && !s.Stopped() && n in pending && UniqueEdgeIds(edges)
    requires Hop(edges, task.filter, e, n, far) && far in depth
    ensures Stepped(edges, task, s, depth, level, pending, n, e, s.(seen := s.seen + {e.id}), depth)
  {
    var t := s.(seen := s.seen + {e.id});
    HopEnds(edges, task.filter, e, n, far);
    assert Settled(t, depth, task.filter, n, e);
    AboveStays(edges, task.filter, s, depth, t, depth, level, pending);
    SeeOneMore(edges, task.filter, s, depth, e, t, depth);
  }

  /** Facts shared by the two ways a step adds a node. */
  lemma {:induction false} AdoptKeeps(edges: seq<Edge>, task: Task, s: Search, depth: Depths, level: nat, pending: set<Id>, n: Id, e: Edge, far: Id)
    requires Scanning(edges, task, s, depth, level, pending) && !s.Stopped() && n in pending && UniqueEdgeIds(edges)
    requires Hop(edges, task.filter, e, n, far) && far !in depth
    ensures var t := Adopt(s.(seen := s.seen + {e.id}), n, e, far);
      var deeper := depth[far := level];
      && Tree(edges, task.filter, task.start, t.parent, deeper)
      && Noted(edges, task.filter, t)
      && SeenInside(edges, task.filter, t, deeper)
      && AboveFinished(edges, task.filter, t, deeper, level, pending)
      && Extends(s, depth, t, deeper)
      && Settled(t, deeper, task.filter, n, e)
  {
    var t := Adopt(s.(seen := s.seen + {e.id}), n, e, far);
    var deeper := depth[far := level];
    AdoptKeepsTree(edges, task.filter, task.start, s.parent, depth, n, e, far);
    HopEnds(edges, task.filter, e, n, far);
    assert Elements(t.visited) == Elements(s.visited) + {far};
    AboveStays(edges, task.filter, s, depth, t, deeper, level, pending);
    SeeOneMore(edges, task.filter, s, depth, e, t, deeper);
  }

  /** The knowledge predicates read only what has been seen, kept and reached. */
  lemma {:induction false} SameKnowledge(
    edges: seq<Edge>, f: Filter, t: Search, u: Search, depth: Depths, level: nat, pending: set<Id>, n: Id, e: Edge)
    requires u.parent == t.parent && u.visited == t.visited && u.seen == t.seen && u.unresolved == t.unresolved
    requires Noted(edges, f, t) && SeenInside(edges, f, t, depth) && AboveFinished(edges, f, t, depth, level, pending)
    requires n in depth && Settled(t, depth, f, n, e)
    ensures Noted(edges, f, u) && SeenInside(edges, f, u, depth) && AboveFinished(edges, f, u, depth, level, pending)
    ensures Settled(u, depth, f, n, e)
  {
    forall m | m in depth && depth[m] < level && m !in pending ensures Finished(edges, f, u, depth, m) {
      FinishedStays(edges, f, t, depth, u, depth, m);
    }
  }

  lemma {:induction false} LayeredWithGoal(task: Task, s: Search, depth: Depths, level: nat, t: Search)
    requires Layered(task, s, depth, level) && !s.found
    requires t.parent.Keys == s.parent.Keys + {task.goal} && t.next == s.next && t.found
    ensures Layered(task, t, depth[task.goal := level], level)
  {
  }

  lemma {:induction false} LayeredWithNew(task: Task, s: Search, depth: Depths, level: nat, far: Id, t: Search)
    requires Layered(task, s, depth, level) && !s.found && far !in depth && far != task.goal
    requires t.parent.Keys == s.parent.Keys + {far} && t.next == s.next + [far] && !t.found
    ensures Layered(task, t, depth[far := level], level)
  {
  }

  /** What an adopting step comes to, put together from its parts. */
  lemma {:induction false} SteppedFromParts(
    edges: seq<Edge>, task: Task, s: Search, depth: Depths, level: nat, pending: set<Id>, n: Id, e: Edge, t: Search,
    u: Search, deeper: Depths)
    requires task.start != task.goal && Layered(task, u, deeper, level)
    requires Tree(edges, task.filter, task.start, t.parent, deeper)
    requires Noted(edges, task.filter, t) && SeenInside(edges, task.filter, t, deeper)
    requires AboveFinished(edges, task.filter, t, deeper, level, pending)
    requires Extends(s, depth, t, deeper) && n in deeper && Settled(t, deeper, task.filter, n, e)
    requires u.parent == t.parent && u.visited == t.visited && u.seen == t.seen && u.unresolved == t.unresolved
    ensures Stepped(edges, task, s, depth, level, pending, n, e, u, deeper)
  {
    SameKnowledge(edges, task.filter, t, u, deeper, level, pending, n, e);
  }

  lemma {:induction false} StepGoal(edges: seq<Edge>, task: Task, s: Search, depth: Depths, level: nat, pending: set<Id>, n: Id, e: Edge)
    requires Scanning(edges, task, s, depth, level, pending) && !s.Stopped() && n in pending && UniqueEdgeIds(edges)
    requires Hop(edges, task.filter, e, n, task.goal)
    ensures Stepped(edges, task, s, depth, level, pending, n, e,
      Adopt(s.(seen := s.seen + {e.id}), n, e, task.goal).(found := true), depth[task.goal := level])
  {
    AdoptKeeps(edges, task, s, depth, level, pending, n, e, task.goal);
    var t := Adopt(s.(seen := s.seen + {e.id}), n, e, task.goal);
    var u := t.(found := true);
    LayeredWithGoal(task, s, depth, level, u);
    SteppedFromParts(edges, task, s, depth, level, pending, n, e, t, u, depth[task.goal := level]);
  }

  lemma {:induction false} StepNew(edges: seq<Edge>, task: Task, s: Search, depth: Depths, level: nat, pending: set<Id>, n: Id, e: Edge, far: Id)
    requires Scanning(edges, task, s, depth, level, pending) && !s.Stopped() && n in pending && UniqueEdgeIds(edges)
    requires Hop(edges, task.filter, e, n, far) && far !in depth && far != task.goal
    ensures Stepped(edges, task, s, depth, level, pending, n, e,
      Adopt(s.(seen := s.seen + {e.id}), n, e, far).(next := s.next + [far]), depth[far := level])
  {
    AdoptKeeps(edges, task, s, depth, level, pending, n, e, far);
    var t := Adopt(s.(seen := s.seen + {e.id}), n, e, far);
    var u := t.(next := s.next + [far]);
    LayeredWithNew(task, s, depth, level, far, u);
    SteppedFromParts(edges, task, s, depth, level, pending, n, e, t, u, depth[far := level]);
  }

  /** Every step keeps the invariant and settles the edge it examined, unless it stops the search. */
  lemma {:induction false} StepKeeps(edges: seq<Edge>, task: Task, s: Search, depth: Depths, level: nat, pending: set<Id>, n: Id, e: Edge)
    returns (deeper: Depths)
    requires Scanning(edges, task, s, depth, level, pending) && !s.Stopped() && n in pending && UniqueEdgeIds(edges)
    requires e in edges && task.filter.Admits(e) && Touches(e, n, task.filter.heading)
    ensures n in deeper && Stepped(edges, task, s, depth, level, pending, n, e, ScanEdge(s, n, e, task), deeper)
  {
    deeper := depth;
    if e.id in s.seen {
      StepSeen(edges, task, s, depth, level, pending, n, e);
    } else if |s.seen| >= task.edgeBudget {
      StepEdgeCut(edges, task, s, depth, level, pending, n, e);
    } else if !e.Resolved() {
      StepUnresolved(edges, task, s, depth, level, pending, n, e);
    } else if |s.visited| >= task.nodeBudget {
      StepNodeCut(edges, task, s, depth, level, pending, n, e);
    } else {
      var far := OtherEnd(e, n, task.filter.heading).value;
      if far == task.goal {
        StepGoal(edges, task, s, depth, level, pending, n, e);
        deeper := depth[far := level];
      } else if far in s.parent {
        StepKnown(edges, task, s, depth, level, pending, n, e, far);
      } else {
        StepNew(edges, task, s, depth, level, pending, n, e, far);
        deeper := depth[far := level];
      }
    }
  }

  // ---------------------------------------------------------------- honest budgets

  /** `around` holds every edge examined so far; a cut means a budget really ran out. */
  ghost predicate Counted(task: Task, s: Search, around: set<Edge>) {
    && |s.visited| == |s.parent|
    && s.seen <= (set e | e in around :: e.id)
    && (s.nodesCut ==> |s.visited| >= task.nodeBudget)
    && (s.edgesCut ==> |around| > task.edgeBudget)
  }

  lemma {:induction false} ImageSize(around: set<Edge>)
    ensures |set e | e in around :: e.id| <= |around|
  {
    if around != {} {
      var e :| e in around;
      ImageSize(around - {e});
      assert (set d | d in around :: d.id) == (set d | d in around - {e} :: d.id) + {e.id};
    }
  }

  lemma {:induction false} StepCounts(task: Task, s: Search, around: set<Edge>, n: Id, e: Edge)
    requires Counted(task, s, around) && e in around && !s.found && task.goal !in s.parent
    ensures Counted(task, ScanEdge(s, n, e, task), around)
  {
    var ids := set d | d in around :: d.id;
    assert e.id in ids;
    if e.id !in s.seen && |s.seen| >= task.edgeBudget {
      SubsetSize(s.seen + {e.id}, ids);
      ImageSize(around);
    }
  }

  lemma {:induction false} CountedInLarger(task: Task, s: Search, around: set<Edge>, wider: set<Edge>)
    requires Counted(task, s, around) && around <= wider
    ensures Counted(task, s, wider)
  {
    SubsetSize(around, wider);
  }
}
