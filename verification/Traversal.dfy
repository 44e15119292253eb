/**
  Reachability, independent of any search: trails of edges, balls around a set of roots, the
  edges around a set of nodes, and what repairing unresolved edges can add.
*/
module Traversal {
  import opened Ordering
  import opened Wrappers
  import opened GraphModel
  import opened Incidence

  // ---------------------------------------------------------------- trails

  ghost predicate Hop(edges: seq<Edge>, f: Filter, e: Edge, a: Id, b: Id) {
    e in edges && f.Admits(e) && OtherEnd(e, a, f.heading) == Some(b)
  }

  /** `via[i]` leads from `stops[i]` to `stops[i + 1]` under the heading and filters of `f`. */
  ghost predicate Trail(edges: seq<Edge>, f: Filter, stops: seq<Id>, via: seq<Edge>) {
    && |stops| == |via| + 1
    && forall i :: 0 <= i < |via| ==> Hop(edges, f, via[i], stops[i], stops[i + 1])
  }

  ghost predicate TrailBetween(edges: seq<Edge>, f: Filter, a: Id, b: Id, stops: seq<Id>, via: seq<Edge>) {
    Trail(edges, f, stops, via) && stops[0] == a && stops[|via|] == b
  }

  /** `b` can be reached from `a` by a trail of any length. */
  ghost predicate Connected(edges: seq<Edge>, f: Filter, a: Id, b: Id) {
    exists stops, via :: TrailBetween(edges, f, a, b, stops, via)
  }

  ghost predicate ConnectedWithin(edges: seq<Edge>, f: Filter, a: Id, b: Id, k: nat) {
    exists stops, via :: TrailBetween(edges, f, a, b, stops, via) && |via| <= k
  }

  ghost predicate ClosedUnderHops(edges: seq<Edge>, f: Filter, s: set<Id>) {
    forall e, a, b :: a in s && Hop(edges, f, e, a, b) ==> b in s
  }

  /** No trail leaves a closed set. */
  lemma {:induction false} TrailStaysInside(edges: seq<Edge>, f: Filter, s: set<Id>, stops: seq<Id>, via: seq<Edge>)
    requires ClosedUnderHops(edges, f, s)
    requires Trail(edges, f, stops, via) && stops[0] in s
    ensures stops[|via|] in s
  {
    if via != [] {
      var n := |via| - 1;
      TrailStaysInside(edges, f, s, stops[..n + 1], via[..n]);
      assert Hop(edges, f, via[n], stops[n], stops[n + 1]);
    }
  }

  // ---------------------------------------------------------------- balls

  /** Every node one hop away from a member of `s`. */
  function Next(edges: seq<Edge>, f: Filter, s: set<Id>): set<Id> {
    (set e | e in edges && f.Admits(e) && e.target.Pinned? && f.heading != Incoming && e.source in s :: e.target.id) +
    (set e | e in edges && f.Admits(e) && e.target.Pinned? && f.heading != Outgoing && e.target.id in s :: e.source)
  }

  lemma {:induction false} NextIsHop(edges: seq<Edge>, f: Filter, s: set<Id>, b: Id)
    ensures b in Next(edges, f, s) <==> exists e, a :: a in s && Hop(edges, f, e, a, b)
  {
    if b in Next(edges, f, s) {
      if e :| e in edges && f.Admits(e) && e.target.Pinned? && f.heading != Incoming && e.source in s && e.target.id == b {
        assert Hop(edges, f, e, e.source, b);
      } else {
        var e :| e in edges && f.Admits(e) && e.target.Pinned? && f.heading != Outgoing && e.target.id in s && e.source == b;
        assert Hop(edges, f, e, e.target.id, b);
      }
    }
  }

  /** Everything within `k` hops of the roots. */
  function Ball(edges: seq<Edge>, f: Filter, roots: set<Id>, k: nat): set<Id> {
    if k == 0 then roots
    else
      var inner := Ball(edges, f, roots, k - 1);
      inner + Next(edges, f, inner)
  }

  lemma {:induction false} BallGrows(edges: seq<Edge>, f: Filter, roots: set<Id>, j: nat, k: nat)
    requires j <= k
    ensures Ball(edges, f, roots, j) <= Ball(edges, f, roots, k)
    decreases k - j
  {
    if j < k {
      BallGrows(edges, f, roots, j + 1, k);
    }
  }

  /** Once a ball stops growing it has stopped for good. */
  lemma {:induction false} BallSettles(edges: seq<Edge>, f: Filter, roots: set<Id>, j: nat, k: nat)
    requires j <= k && Ball(edges, f, roots, j + 1) == Ball(edges, f, roots, j)
    ensures Ball(edges, f, roots, k) == Ball(edges, f, roots, j)
    decreases k
  {
    if j < k {
      BallSettles(edges, f, roots, j, k - 1);
      SameStep(edges, f, Ball(edges, f, roots, k - 1), Ball(edges, f, roots, j));
    }
  }

  lemma {:induction false} SameStep(edges: seq<Edge>, f: Filter, s: set<Id>, t: set<Id>)
    requires s == t
    ensures s + Next(edges, f, s) == t + Next(edges, f, t)
  {
  }

  lemma {:induction false} TrailEndsInBall(edges: seq<Edge>, f: Filter, roots: set<Id>, stops: seq<Id>, via: seq<Edge>)
    requires Trail(edges, f, stops, via) && stops[0] in roots
    ensures stops[|via|] in Ball(edges, f, roots, |via|)
  {
    if via != [] {
      var n := |via| - 1;
      TrailEndsInBall(edges, f, roots, stops[..n + 1], via[..n]);
      assert Hop(edges, f, via[n], stops[n], stops[n + 1]);
      NextIsHop(edges, f, Ball(edges, f, roots, n), stops[n + 1]);
    }
  }

  lemma {:induction false} BallHasTrail(edges: seq<Edge>, f: Filter, roots: set<Id>, k: nat, b: Id)
    returns (a: Id, stops: seq<Id>, via: seq<Edge>)
    requires b in Ball(edges, f, roots, k)
    ensures a in roots && TrailBetween(edges, f, a, b, stops, via) && |via| <= k
  {
    if k == 0 {
      a, stops, via := b, [b], [];
    } else if b in Ball(edges, f, roots, k - 1) {
      a, stops, via := BallHasTrail(edges, f, roots, k - 1, b);
    } else {
      NextIsHop(edges, f, Ball(edges, f, roots, k - 1), b);
      var e, m :| m in Ball(edges, f, roots, k - 1) && Hop(edges, f, e, m, b);
      a, stops, via := BallHasTrail(edges, f, roots, k - 1, m);
      stops, via := stops + [b], via + [e];
    }
  }

  /** A ball is exactly the set of ends of short trails. */
  lemma {:induction false} BallIsShortTrails(edges: seq<Edge>, f: Filter, root: Id, k: nat, b: Id)
    ensures b in Ball(edges, f, {root}, k) <==> ConnectedWithin(edges, f, root, b, k)
  {
    if b in Ball(edges, f, {root}, k) {
      var a, stops, via := BallHasTrail(edges, f, {root}, k, b);
    }
    if stops, via :| TrailBetween(edges, f, root, b, stops, via) && |via| <= k {
      TrailEndsInBall(edges, f, {root}, stops, via);
      BallGrows(edges, f, {root}, |via|, k);
    }
  }

  /** A ball that no longer grows is the whole reachable set. */
  lemma {:induction false} SettledBallIsEverything(edges: seq<Edge>, f: Filter, root: Id, k: nat, b: Id)
    requires Ball(edges, f, {root}, k + 1) == Ball(edges, f, {root}, k)
    ensures b in Ball(edges, f, {root}, k) <==> Connected(edges, f, root, b)
  {
    if b in Ball(edges, f, {root}, k) {
      var a, stops, via := BallHasTrail(edges, f, {root}, k, b);
    }
    if stops, via :| TrailBetween(edges, f, root, b, stops, via) {
      TrailEndsInBall(edges, f, {root}, stops, via);
      if |via| <= k {
        BallGrows(edges, f, {root}, |via|, k);
      } else {
        BallSettles(edges, f, {root}, k, |via|);
      }
    }
  }

  /** A ball holds everything reachable exactly when it no longer grows. */
  lemma {:induction false} WholeOrGrowing(edges: seq<Edge>, f: Filter, root: Id, k: nat)
    ensures (forall n :: Connected(edges, f, root, n) ==> n in Ball(edges, f, {root}, k))
      <==> Ball(edges, f, {root}, k + 1) == Ball(edges, f, {root}, k)
  {
    var inner, outer := Ball(edges, f, {root}, k), Ball(edges, f, {root}, k + 1);
    if outer == inner {
      forall n | Connected(edges, f, root, n) ensures n in inner {
        SettledBallIsEverything(edges, f, root, k, n);
      }
    } else {
      var n :| n in outer && n !in inner;
      BallIsShortTrails(edges, f, root, k + 1, n);
      assert Connected(edges, f, root, n);
    }
  }

  // ---------------------------------------------------------------- edges around a set

  /** The admitted edges that touch a member of `s`. */
  function Around(edges: seq<Edge>, f: Filter, s: set<Id>): set<Edge> {
    set e | e in edges && f.Admits(e) &&
      ((f.heading != Incoming && e.source in s) || (f.heading != Outgoing && e.target.Pinned? && e.target.id in s))
  }

  lemma {:induction false} AroundIsTouching(edges: seq<Edge>, f: Filter, s: set<Id>, e: Edge)
    ensures e in Around(edges, f, s) <==>
      e in edges && f.Admits(e) && exists n :: n in s && Touches(e, n, f.heading)
  {
    if e in Around(edges, f, s) {
      if f.heading != Incoming && e.source in s {
        assert Touches(e, e.source, f.heading);
      } else {
        assert Touches(e, e.target.id, f.heading);
      }
    }
  }

  /** The edges a walk of the given depth can examine. */
  function Examined(edges: seq<Edge>, f: Filter, roots: set<Id>, depth: nat): set<Edge> {
    if depth == 0 then {} else Around(edges, f, Ball(edges, f, roots, depth - 1))
  }

  lemma {:induction false} ExaminedGrows(edges: seq<Edge>, f: Filter, roots: set<Id>, j: nat, k: nat)
    requires j <= k
    ensures Examined(edges, f, roots, j) <= Examined(edges, f, roots, k)
  {
    if 0 < j {
      BallGrows(edges, f, roots, j - 1, k - 1);
      AroundGrows(edges, f, Ball(edges, f, roots, j - 1), Ball(edges, f, roots, k - 1));
    }
  }

  lemma {:induction false} AroundGrows(edges: seq<Edge>, f: Filter, s: set<Id>, t: set<Id>)
    requires s <= t
    ensures Around(edges, f, s) <= Around(edges, f, t)
  {
  }

  /** `g` admits only edges that `f` admits, under the same heading. */
  ghost predicate Stricter(g: Filter, f: Filter) {
    g.heading == f.heading && forall e :: g.Admits(e) ==> f.Admits(e)
  }

  lemma {:induction false} StricterBall(edges: seq<Edge>, g: Filter, f: Filter, roots: set<Id>, k: nat)
    requires Stricter(g, f)
    ensures Ball(edges, g, roots, k) <= Ball(edges, f, roots, k)
    ensures Examined(edges, g, roots, k) <= Examined(edges, f, roots, k)
  {
    if 0 < k {
      StricterBall(edges, g, f, roots, k - 1);
    }
  }

  // ---------------------------------------------------------------- repair

  predicate EndsWith(text: string, tail: string) {
    |tail| <= |text| && text[|text| - |tail|..] == tail
  }

  /** An unresolved edge names a node: folded name, folded qualified name, or dotted suffix. */
  predicate NamesNode(fold: Fold, e: Edge, n: Node) {
    && e.target.Named?
    && (var named := fold(e.target.text);
        || named == fold(n.name)
        || named == fold(n.qualifiedName)
        || EndsWith(named, "." + fold(n.name)))
  }

  /** `e` resolved to a pinned node it names; its other facts stay. */
  ghost predicate RepairOf(fold: Fold, nodes: map<Id, Node>, e: Edge, repaired: Edge) {
    && repaired.Resolved() && repaired.target.id in nodes
    && NamesNode(fold, e, nodes[repaired.target.id])
    && repaired.id == e.id && repaired.source == e.source && repaired.kind == e.kind
  }

  /** Any of the unresolved edges may have been resolved; every other edge is as pinned. */
  ghost predicate Repaired(fold: Fold, nodes: map<Id, Node>, edges: seq<Edge>, repaired: seq<Edge>) {
    && |repaired| == |edges|
    && forall i :: 0 <= i < |edges| ==>
         repaired[i] == edges[i] || RepairOf(fold, nodes, edges[i], repaired[i])
  }

  /** No unresolved edge starts in `s` (where the heading follows it) or names a member of `s`. */
  ghost predicate NothingDangling(fold: Fold, nodes: map<Id, Node>, edges: seq<Edge>, f: Filter, s: set<Id>) {
    forall e :: e in edges && !e.Resolved() ==>
      && (f.heading != Incoming && f.Admits(e) ==> e.source !in s)
      && (f.heading != Outgoing ==> forall n :: n in s && n in nodes ==> !NamesNode(fold, e, nodes[n]))
  }

  /** A closed set with nothing dangling stays closed however the unresolved edges are resolved. */
  lemma {:induction false} RepairKeepsClosed(fold: Fold, nodes: map<Id, Node>, edges: seq<Edge>, repaired: seq<Edge>, f: Filter, s: set<Id>)
    requires ClosedUnderHops(edges, f, s) && NothingDangling(fold, nodes, edges, f, s)
    requires f.resolutions.None? && Repaired(fold, nodes, edges, repaired)
    ensures ClosedUnderHops(repaired, f, s)
  {
    forall e, a, b | a in s && Hop(repaired, f, e, a, b) ensures b in s {
      var i :| 0 <= i < |repaired| && repaired[i] == e;
      if e == edges[i] {
        assert Hop(edges, f, e, a, b);
      } else {
        assert RepairOf(fold, nodes, edges[i], e) && edges[i] in edges;
        assert f.Admits(edges[i]);
      }
    }
  }

  /** Repairing never removes a trail: resolved edges are kept as they are. */
  lemma {:induction false} RepairKeepsTrails(
    fold: Fold, nodes: map<Id, Node>, edges: seq<Edge>, repaired: seq<Edge>, f: Filter, stops: seq<Id>, via: seq<Edge>)
    requires Repaired(fold, nodes, edges, repaired) && Trail(edges, f, stops, via)
    ensures Trail(repaired, f, stops, via)
  {
    forall i | 0 <= i < |via| ensures Hop(repaired, f, via[i], stops[i], stops[i + 1]) {
      assert Hop(edges, f, via[i], stops[i], stops[i + 1]);
      var k :| 0 <= k < |edges| && edges[k] == via[i];
      assert repaired[k] == edges[k];
    }
  }
}
