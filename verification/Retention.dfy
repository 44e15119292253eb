/** Retention of loaded generations, and the measure it budgets by. */
module Retention {
  import opened Wrappers
  import opened Ordering
  import opened Recency

  // ---------------------------------------------------------------- the measure

  /** One object: its own size and the objects it refers to, in the order they are visited. */
  datatype Object = Object(size: nat, parts: seq<nat>)

  type Heap = map<nat, Object>

  ghost predicate Whole(heap: Heap) {
    forall x :: x in heap ==> forall i :: 0 <= i < |heap[x].parts| ==> heap[x].parts[i] in heap
  }

  ghost predicate Refers(heap: Heap, x: nat, y: nat) {
    x in heap && y in heap[x].parts
  }

  ghost predicate Path(heap: Heap, p: seq<nat>) {
    p != [] && forall i :: 0 <= i < |p| - 1 ==> Refers(heap, p[i], p[i + 1])
  }

  ghost predicate Reaches(heap: Heap, x: nat, y: nat) {
    exists p :: Path(heap, p) && p[0] == x && p[|p| - 1] == y
  }

  function Sizes(heap: Heap, order: seq<nat>): nat {
    if order == [] then 0
    else Sizes(heap, order[..|order| - 1]) + var x := order[|order| - 1]; if x in heap then heap[x].size else 0
  }

  lemma {:induction false} SizesConcat(heap: Heap, s: seq<nat>, t: seq<nat>)
    ensures Sizes(heap, s + t) == Sizes(heap, s) + Sizes(heap, t)
  {
    if t == [] {
      assert s + t == s;
    } else {
      assert (s + t)[..|s + t| - 1] == s + t[..|t| - 1];
      SizesConcat(heap, s, t[..|t| - 1]);
    }
  }

  lemma {:induction false} ReachesItself(heap: Heap, x: nat)
    ensures Reaches(heap, x, x)
  {
    assert Path(heap, [x]);
  }

  lemma {:induction false} ReachesThrough(heap: Heap, x: nat, y: nat, z: nat)
    requires Refers(heap, x, y) && Reaches(heap, y, z)
    ensures Reaches(heap, x, z)
  {
    var p :| Path(heap, p) && p[0] == y && p[|p| - 1] == z;
    var q := [x] + p;
    forall i | 0 <= i < |q| - 1 ensures Refers(heap, q[i], q[i + 1]) {
      if i > 0 { assert q[i] == p[i - 1]; }
    }
    assert Path(heap, q);
  }

  /** Nothing in `counted` refers to anything outside `seen`. */
  ghost predicate PartsSeen(heap: Heap, counted: seq<nat>, seen: set<nat>) {
    forall x :: x in counted ==> x in heap && forall y :: y in heap[x].parts ==> y in seen
  }

  lemma {:induction false} PathStaysSeen(heap: Heap, p: seq<nat>, seen: set<nat>, order: seq<nat>)
    requires Path(heap, p) && p[0] in seen && seen == Elements(order) && PartsSeen(heap, order, seen)
    ensures p[|p| - 1] in seen
  {
    if |p| > 1 {
      var q := p[..|p| - 1];
      forall i | 0 <= i < |q| - 1 ensures Refers(heap, q[i], q[i + 1]) {
        assert Refers(heap, p[i], p[i + 1]);
      }
      PathStaysSeen(heap, q, seen, order);
      assert Refers(heap, p[|p| - 2], p[|p| - 2 + 1]);
      assert q[|q| - 1] in order;
    }
  }

  /** `order` lists what was counted since `was`: each once, each reachable from `x`. */
  ghost predicate Counted(heap: Heap, x: nat, was: set<nat>, seen: set<nat>, order: seq<nat>) {
    && seen == was + Elements(order) && Distinct(order)
    && forall y :: y in order ==> y !in was && Reaches(heap, x, y)
  }

  lemma {:induction false} CountedMore(heap: Heap, x: nat, part: nat, was: set<nat>, mid: set<nat>, seen: set<nat>, order: seq<nat>, found: seq<nat>)
    requires Counted(heap, x, was, mid, order) && Refers(heap, x, part) && Counted(heap, part, mid, seen, found)
    ensures Counted(heap, x, was, seen, order + found)
  {
    forall y | y in found ensures Reaches(heap, x, y) && y !in order && y !in was {
      ReachesThrough(heap, x, part, y);
    }
    var all := order + found;
    forall i, j | 0 <= i < j < |all| ensures all[i] != all[j] {
      if i < |order| && j >= |order| { assert all[j] in found && all[i] in order; }
    }
    assert Elements(all) == Elements(order) + Elements(found);
  }

  lemma {:induction false} PartsSeenMore(heap: Heap, order: seq<nat>, found: seq<nat>, mid: set<nat>, seen: set<nat>)
    requires order != [] && PartsSeen(heap, order[1..], mid) && PartsSeen(heap, found, seen) && mid <= seen
    ensures PartsSeen(heap, (order + found)[1..], seen)
  {
    assert (order + found)[1..] == order[1..] + found;
  }

  ghost predicate SeenFirst(parts: seq<nat>, n: nat, seen: set<nat>) {
    n <= |parts| && forall j :: 0 <= j < n ==> parts[j] in seen
  }

  lemma {:induction false} SeenOneMore(parts: seq<nat>, i: nat, mid: set<nat>, seen: set<nat>)
    requires i < |parts| && SeenFirst(parts, i, mid) && mid <= seen && parts[i] in seen
    ensures SeenFirst(parts, i + 1, seen)
  {
  }

  lemma {:induction false} RootDone(heap: Heap, x: nat, order: seq<nat>, seen: set<nat>)
    requires x in heap && order != [] && order[0] == x && PartsSeen(heap, order[1..], seen)
    requires SeenFirst(heap[x].parts, |heap[x].parts|, seen)
    ensures PartsSeen(heap, order, seen)
  {
    assert order == [x] + order[1..];
  }

  /** `x` and what its first `i` parts contain have been counted. */
  ghost predicate Underway(heap: Heap, x: nat, was: set<nat>, seen: set<nat>, order: seq<nat>, size: nat, i: nat) {
    && x in heap && x in seen && Counted(heap, x, was, seen, order)
    && SeenFirst(heap[x].parts, i, seen)
    && order != [] && order[0] == x && PartsSeen(heap, order[1..], seen)
    && size == Sizes(heap, order)
  }

  lemma {:induction false} BeginsUnderway(heap: Heap, x: nat, was: set<nat>)
    requires x in heap && x !in was
    ensures Underway(heap, x, was, was + {x}, [x], heap[x].size, 0)
  {
    ReachesItself(heap, x);
    assert [x][..0] == [] && Sizes(heap, [x]) == Sizes(heap, []) + heap[x].size;
  }

  lemma {:induction false} OnePartMore(
    heap: Heap, x: nat, was: set<nat>, mid: set<nat>, seen: set<nat>, order: seq<nat>, size: nat, i: nat, found: seq<nat>)
    requires Underway(heap, x, was, mid, order, size, i) && i < |heap[x].parts|
    requires Counted(heap, heap[x].parts[i], mid, seen, found) && PartsSeen(heap, found, seen) && heap[x].parts[i] in seen
    ensures Underway(heap, x, was, seen, order + found, size + Sizes(heap, found), i + 1)
  {
    SizesConcat(heap, order, found);
    CountedMore(heap, x, heap[x].parts[i], was, mid, seen, order, found);
    PartsSeenMore(heap, order, found, mid, seen);
    SeenOneMore(heap[x].parts, i, mid, seen);
  }

  /** Counts parsed objects and what they contain, each once however often it is referred to. */
  class Sizer {
    const heap: Heap
    var seen: set<nat>

    constructor (heap: Heap)
      ensures this.heap == heap && seen == {}
    {
      this.heap, seen := heap, {};
    }

    /**
      What this call counted, in order; everything those objects refer to has been seen by the end.
      Sharing and cycles do not matter.
    */
    method Retained(x: nat) returns (size: nat, ghost order: seq<nat>)
      requires Whole(heap) && x in heap
      modifies this`seen
      ensures x in seen && Counted(heap, x, old(seen), seen, order)
      ensures PartsSeen(heap, order, seen)
      ensures size == Sizes(heap, order)
      decreases |heap.Keys - seen|
    {
      if x in seen { return 0, []; }
      var parts := heap[x].parts;
      SmallerLeft(heap.Keys, seen, x);
      BeginsUnderway(heap, x, seen);
      size, order := heap[x].size, [x];
      seen := seen + {x};
      ghost var left := heap.Keys - seen;
      for i := 0 to |parts|
        invariant Underway(heap, x, old(seen), seen, order, size, i)
        invariant heap.Keys - seen <= left
      {
        SubsetSize(heap.Keys - seen, left);
        ghost var mid := seen;
        var more, found := Retained(parts[i]);
        OnePartMore(heap, x, old(seen), mid, seen, order, size, i, found);
        size := size + more;
        order := order + found;
      }
      RootDone(heap, x, order, seen);
    }
  }

  lemma {:induction false} SmallerLeft(all: set<nat>, seen: set<nat>, x: nat)
    requires x in all && x !in seen
    ensures |all - (seen + {x})| < |all - seen|
  {
    assert all - seen == (all - (seen + {x})) + {x};
  }

  /** `size` is the sum over everything reachable from `x`, each object once. */
  ghost predicate Measures(heap: Heap, x: nat, size: nat) {
    exists order :: CountsReachable(heap, x, order) && size == Sizes(heap, order)
  }

  ghost predicate CountsReachable(heap: Heap, x: nat, order: seq<nat>) {
    Distinct(order) && forall y :: y in order <==> Reaches(heap, x, y)
  }

  /** The order of counting does not matter, so a value has one measure. */
  lemma {:induction false} SizesForgetOrder(heap: Heap, s: seq<nat>, t: seq<nat>)
    requires Distinct(s) && Distinct(t) && forall x :: x in s <==> x in t
    ensures Sizes(heap, s) == Sizes(heap, t)
    decreases |s|
  {
    DistinctSame(s, t);
    if s != [] {
      var n := |s| - 1;
      assert s[n] in t;
      var k :| 0 <= k < |t| && t[k] == s[n];
      var rest := t[..k] + t[k + 1..];
      WithoutOne(s, n);
      WithoutOne(t, k);
      assert s[..n] + s[n + 1..] == s[..n];
      forall x ensures x in s[..n] <==> x in rest {
        assert x in s[..n] <==> x in s && x != s[n];
      }
      SizesForgetOrder(heap, s[..n], rest);
      SizesWithout(heap, t, k);
    }
  }

  lemma {:induction false} SizesWithout(heap: Heap, t: seq<nat>, k: nat)
    requires k < |t|
    ensures Sizes(heap, t) == Sizes(heap, t[..k] + t[k + 1..]) + (if t[k] in heap then heap[t[k]].size else 0)
  {
    assert t == t[..k] + ([t[k]] + t[k + 1..]);
    SizesConcat(heap, t[..k], [t[k]] + t[k + 1..]);
    SizesConcat(heap, [t[k]], t[k + 1..]);
    SizesConcat(heap, t[..k], t[k + 1..]);
    assert [t[k]][..0] == [];
    assert Sizes(heap, [t[k]]) == Sizes(heap, []) + (if t[k] in heap then heap[t[k]].size else 0);
  }

  lemma {:induction false} WithoutOne(t: seq<nat>, k: nat)
    requires Distinct(t) && k < |t|
    ensures Distinct(t[..k] + t[k + 1..])
    ensures forall x :: x in t[..k] + t[k + 1..] <==> x in t && x != t[k]
  {
    assert t == t[..k] + [t[k]] + t[k + 1..];
  }

  lemma {:induction false} OneMeasure(heap: Heap, x: nat, a: nat, b: nat)
    requires Measures(heap, x, a) && Measures(heap, x, b)
    ensures a == b
  {
    var s :| CountsReachable(heap, x, s) && a == Sizes(heap, s);
    var t :| CountsReachable(heap, x, t) && b == Sizes(heap, t);
    forall y ensures y in s <==> y in t {
      assert y in s <==> Reaches(heap, x, y);
    }
    SizesForgetOrder(heap, s, t);
  }

  /** What a value retains, starting from nothing seen. */
  method RetainedSize(heap: Heap, x: nat) returns (size: nat)
    requires Whole(heap) && x in heap
    ensures Measures(heap, x, size)
  {
    var sizer := new Sizer(heap);
    ghost var order;
    size, order := sizer.Retained(x);
    forall y | Reaches(heap, x, y) ensures y in order {
      var p :| Path(heap, p) && p[0] == x && p[|p| - 1] == y;
      PathStaysSeen(heap, p, sizer.seen, order);
    }
    assert CountsReachable(heap, x, order);
  }

  // ---------------------------------------------------------------- the store

  /** What is retained is the frozen value, budgeted with its key; `sizeOf` is `RetainedSize` of both. */
  class GenerationRetention<K(==), V> {
    const limits: Limits
    const freeze: V -> V
    const sizeOf: (K, V) -> nat
    var entries: seq<Entry<K, V>>
    var bytes: nat
    var hits: nat
    var misses: nat
    var evictions: nat

    ghost predicate Valid() reads this {
      && limits.entries >= 1 && limits.bytes >= 1
      && Keyed(entries) && bytes == Total(entries) && Within(entries, limits)
    }

    constructor (limits: Limits, freeze: V -> V, sizeOf: (K, V) -> nat)
      requires limits.entries >= 1 && limits.bytes >= 1
      ensures Valid() && entries == []
      ensures this.limits == limits && this.freeze == freeze && this.sizeOf == sizeOf
    {
      this.limits, this.freeze, this.sizeOf := limits, freeze, sizeOf;
      entries, bytes, hits, misses, evictions := [], 0, 0, 0, 0;
    }

    method Get(key: K) returns (r: Option<V>)
      requires Valid()
      modifies this`entries, this`hits, this`misses
      ensures Valid() && entries == Touched(old(entries), key)
      ensures r.Some? <==> Has(old(entries), key)
      ensures r.Some? ==> r.value == old(entries)[Find(old(entries), key).value].value
      ensures hits == old(hits) + (if r.Some? then 1 else 0) && hits + misses == old(hits) + old(misses) + 1
    {
      var found := Find(entries, key);
      match found {
        case None =>
          misses := misses + 1;
          return None;
        case Some(i) =>
          TouchedIsSame(entries, key);
          WithoutPresent(entries, i);
          r := Some(entries[i].value);
          entries := entries[..i] + entries[i + 1..] + [entries[i]];
          hits := hits + 1;
          assert entries == Touched(old(entries), key);
      }
    }

    /**
      A value over budget, before or after freezing, leaves everything as it was. Any other is the
      most recent entry afterwards, with the shortest run of least recent entries gone.
    */
    method Put(key: K, value: V)
      requires Valid()
      modifies this`entries, this`bytes, this`evictions
      ensures Valid()
      ensures var owned := freeze(value);
        if sizeOf(key, value) > limits.bytes || sizeOf(key, owned) > limits.bytes then
          entries == old(entries) && evictions == old(evictions)
        else
          && entries == Stored(old(entries), Entry(key, owned, sizeOf(key, owned)), limits)
          && entries != [] && entries[|entries| - 1] == Entry(key, owned, sizeOf(key, owned))
          && evictions - old(evictions) == |Without(old(entries), key)| + 1 - |entries|
    {
      if sizeOf(key, value) > limits.bytes { return; }
      var owned := freeze(value);
      var size := sizeOf(key, owned);
      if size > limits.bytes { return; }
      var e := Entry(key, owned, size);
      var found := Find(entries, key);
      KeyedSnoc(entries, e);
      StoredMeans(entries, e, limits);
      ghost var all := Without(entries, key) + [e];
      TotalConcat(Without(entries, key), [e]);
      match found {
        case None =>
          WithoutAbsent(entries, key);
        case Some(i) =>
          WithoutPresent(entries, i);
          TakenOutTotal(entries, i);
          bytes := bytes - entries[i].size;
          entries := entries[..i] + entries[i + 1..];
      }
      entries := entries + [e];
      bytes := bytes + size;
      while bytes > limits.bytes || |entries| > limits.entries
        invariant Keyed(entries) && bytes == Total(entries)
        invariant Evicted(entries, limits) == Evicted(all, limits)
        invariant evictions - old(evictions) == |all| - |entries|
        decreases |entries|
      {
        bytes := bytes - entries[0].size;
        entries := entries[1..];
        evictions := evictions + 1;
      }
    }

    method Clear()
      requires Valid()
      modifies this`entries, this`bytes
      ensures Valid() && entries == []
    {
      entries, bytes := [], 0;
    }
  }
}
