/** Sorting as Python's `sorted` does it: stable, by a total order on keys. */
module Ordering {

  // ---------------------------------------------------------------- text order

  /** Python's `<=` on strings: code point by code point, a proper prefix first. */
  predicate TextLe(a: string, b: string) {
    a == [] || (b != [] && (a[0] < b[0] || (a[0] == b[0] && TextLe(a[1..], b[1..]))))
  }

  lemma {:induction false} TextLeTotal(a: string, b: string)
    ensures TextLe(a, b) || TextLe(b, a)
    ensures TextLe(a, b) && TextLe(b, a) ==> a == b
    ensures TextLe(a, a)
  {
    if a != [] {
      TextLeTotal(a[1..], a[1..]);
      if b != [] && a[0] == b[0] {
        TextLeTotal(a[1..], b[1..]);
        assert a == [a[0]] + a[1..] && b == [b[0]] + b[1..];
      }
    }
  }

  lemma {:induction false} TextLeTransitive(a: string, b: string, c: string)
    requires TextLe(a, b) && TextLe(b, c)
    ensures TextLe(a, c)
  {
    if a != [] && b[0] == c[0] && a[0] == b[0] {
      TextLeTransitive(a[1..], b[1..], c[1..]);
    }
  }

  // ---------------------------------------------------------------- sorting

  /** A total preorder on the whole type: ties are allowed, incomparable pairs are not. */
  ghost predicate Preorder<T(!new)>(le: (T, T) -> bool) {
    && (forall x, y :: le(x, y) || le(y, x))
    && (forall x, y, z :: le(x, y) && le(y, z) ==> le(x, z))
  }

  ghost predicate Sorted<T(!new)>(le: (T, T) -> bool, s: seq<T>) {
    forall i, j :: 0 <= i < j < |s| ==> le(s[i], s[j])
  }

  /** No two different elements of `s` share a key. */
  ghost predicate TieFree<T(!new)>(le: (T, T) -> bool, s: seq<T>) {
    forall x, y :: x in s && y in s && le(x, y) && le(y, x) ==> x == y
  }

  function Insert<T>(le: (T, T) -> bool, x: T, s: seq<T>): (r: seq<T>)
    ensures multiset(r) == multiset([x]) + multiset(s)
  {
    if s == [] || le(x, s[0]) then [x] + s
    else
      assert s == [s[0]] + s[1..];
      [s[0]] + Insert(le, x, s[1..])
  }

  /** Stable insertion sort: what `sorted(s, key=...)` returns. */
  function Sort<T>(le: (T, T) -> bool, s: seq<T>): (r: seq<T>)
    ensures multiset(r) == multiset(s)
    ensures |r| == |s|
  {
    if s == [] then []
    else
      assert s == [s[0]] + s[1..];
      var r := Insert(le, s[0], Sort(le, s[1..]));
      assert |multiset(r)| == |multiset(s)|;
      r
  }

  lemma {:induction false} SameMember<T>(s: seq<T>, t: seq<T>, x: T)
    requires multiset(s) == multiset(t)
    ensures x in s <==> x in t
  {
    assert x in s <==> x in multiset(s);
    assert x in t <==> x in multiset(t);
  }

  lemma {:induction false} SameElements<T>(s: seq<T>, t: seq<T>)
    requires multiset(s) == multiset(t)
    ensures forall x :: x in s <==> x in t
  {
    forall x ensures x in s <==> x in t {
      SameMember(s, t, x);
    }
  }

  lemma {:induction false} InsertSorted<T(!new)>(le: (T, T) -> bool, x: T, s: seq<T>)
    requires Preorder(le) && Sorted(le, s)
    ensures Sorted(le, Insert(le, x, s))
  {
    if s != [] && !le(x, s[0]) {
      InsertSorted(le, x, s[1..]);
      var r := Insert(le, x, s[1..]);
      SameElements(r, [x] + s[1..]);
      forall y | y in r ensures le(s[0], y) {
        assert y in [x] + s[1..];
      }
    } else if s != [] {
      forall y | y in s ensures le(x, y) {
        assert le(s[0], s[0]);
      }
    }
  }

  lemma {:induction false} SortSorted<T(!new)>(le: (T, T) -> bool, s: seq<T>)
    requires Preorder(le)
    ensures Sorted(le, Sort(le, s))
  {
    if s != [] {
      SortSorted(le, s[1..]);
      InsertSorted(le, s[0], Sort(le, s[1..]));
    }
  }

  /** Two sorted arrangements of the same tie-free elements are the same sequence. */
  lemma {:induction false} SortedUnique<T(!new)>(le: (T, T) -> bool, s: seq<T>, t: seq<T>)
    requires Preorder(le) && Sorted(le, s) && Sorted(le, t)
    requires TieFree(le, s) && multiset(s) == multiset(t)
    ensures s == t
  {
    assert |multiset(s)| == |multiset(t)|;
    if s != [] {
      SameMember(s, t, s[0]);
      SameMember(s, t, t[0]);
      assert le(s[0], t[0]) && le(t[0], s[0]) by {
        assert le(s[0], s[0]);
      }
      assert s == [s[0]] + s[1..] && t == [t[0]] + t[1..];
      assert multiset(s[1..]) == multiset(s) - multiset([s[0]]);
      assert multiset(t[1..]) == multiset(t) - multiset([t[0]]);
      SortedUnique(le, s[1..], t[1..]);
    }
  }

  /** Sorting forgets the order of its input, as long as no two elements tie. */
  lemma {:induction false} SortForgetsOrder<T(!new)>(le: (T, T) -> bool, s: seq<T>, t: seq<T>)
    requires Preorder(le) && TieFree(le, s) && multiset(s) == multiset(t)
    ensures Sort(le, s) == Sort(le, t)
  {
    SortSorted(le, s);
    SortSorted(le, t);
    SameElements(s, Sort(le, s));
    SortedUnique(le, Sort(le, s), Sort(le, t));
  }

  // ---------------------------------------------------------------- sequences and sets

  function Elements<T>(s: seq<T>): set<T> {
    set x | x in s
  }

  ghost predicate Distinct<T(!new)>(s: seq<T>) {
    forall i, j :: 0 <= i < j < |s| ==> s[i] != s[j]
  }

  lemma {:induction false} DistinctSize<T(!new)>(s: seq<T>)
    requires Distinct(s)
    ensures |Elements(s)| == |s|
  {
    if s == [] {
      assert Elements(s) == {};
    } else {
      DistinctSize(s[1..]);
      assert s == [s[0]] + s[1..];
      assert Elements(s) == {s[0]} + Elements(s[1..]);
    }
  }

  lemma {:induction false} PrefixSnoc<T>(s: seq<T>, i: nat)
    requires i < |s|
    ensures s[..i + 1] == s[..i] + [s[i]]
  {
  }

  lemma {:induction false} DistinctCount<T(!new)>(s: seq<T>, x: T)
    requires Distinct(s)
    ensures multiset(s)[x] == if x in s then 1 else 0
  {
    if s != [] {
      DistinctCount(s[1..], x);
      assert s == [s[0]] + s[1..];
    }
  }

  /** Without repetitions, the same elements are the same bag. */
  lemma {:induction false} DistinctSame<T(!new)>(s: seq<T>, t: seq<T>)
    requires Distinct(s) && Distinct(t) && forall x :: x in s <==> x in t
    ensures multiset(s) == multiset(t) && |s| == |t|
  {
    forall x ensures multiset(s)[x] == multiset(t)[x] {
      DistinctCount(s, x);
      DistinctCount(t, x);
    }
    assert multiset(s) == multiset(t);
    assert |s| == |multiset(s)| && |t| == |multiset(t)|;
  }

  lemma {:induction false} Concat3<T>(a: seq<T>, b: seq<T>, c: seq<T>)
    ensures a + b + c == a + (b + c)
  {
  }

  lemma {:induction false} SubsetSize<T>(a: set<T>, b: set<T>)
    requires a <= b
    ensures |a| <= |b|
    ensures |a| == |b| ==> a == b
  {
    assert b == a + (b - a);
    assert |b| == |a| + |b - a|;
  }

  // ---------------------------------------------------------------- filtering

  /** `tuple(x for x in s if p(x))`. */
  function Keep<T(!new)>(p: T -> bool, s: seq<T>): (r: seq<T>)
    ensures forall x :: x in r <==> x in s && p(x)
    ensures |r| <= |s|
  {
    if s == [] then []
    else
      assert s == [s[0]] + s[1..];
      (if p(s[0]) then [s[0]] else []) + Keep(p, s[1..])
  }

  lemma {:induction false} KeepConcat<T(!new)>(p: T -> bool, s: seq<T>, t: seq<T>)
    ensures Keep(p, s + t) == Keep(p, s) + Keep(p, t)
  {
    if s == [] {
      assert s + t == t;
    } else {
      assert (s + t)[1..] == s[1..] + t;
      KeepConcat(p, s[1..], t);
    }
  }

  lemma {:induction false} KeepSnoc<T(!new)>(p: T -> bool, s: seq<T>, i: nat)
    requires i < |s|
    ensures Keep(p, s[..i + 1]) == Keep(p, s[..i]) + (if p(s[i]) then [s[i]] else [])
  {
    assert s[..i + 1] == s[..i] + [s[i]];
    KeepConcat(p, s[..i], [s[i]]);
  }

  lemma {:induction false} KeepAll<T(!new)>(p: T -> bool, s: seq<T>)
    requires forall x :: x in s ==> p(x)
    ensures Keep(p, s) == s
  {
    if s != [] {
      KeepAll(p, s[1..]);
      assert s == [s[0]] + s[1..];
    }
  }

  lemma {:induction false} KeepNone<T(!new)>(p: T -> bool, s: seq<T>)
    requires forall x :: x in s ==> !p(x)
    ensures Keep(p, s) == []
  {
    if s != [] { KeepNone(p, s[1..]); }
  }

  lemma {:induction false} KeepCount<T(!new)>(p: T -> bool, s: seq<T>, x: T)
    ensures multiset(Keep(p, s))[x] == if p(x) then multiset(s)[x] else 0
  {
    if s != [] {
      KeepCount(p, s[1..], x);
      assert s == [s[0]] + s[1..];
    }
  }

  lemma {:induction false} KeepForgetsOrder<T(!new)>(p: T -> bool, s: seq<T>, t: seq<T>)
    requires multiset(s) == multiset(t)
    ensures multiset(Keep(p, s)) == multiset(Keep(p, t))
  {
    forall x ensures multiset(Keep(p, s))[x] == multiset(Keep(p, t))[x] {
      KeepCount(p, s, x);
      KeepCount(p, t, x);
    }
  }

  // ---------------------------------------------------------------- sorted ids

  /** A node or edge id: a digest, ordered as its text. */
  datatype Id = Digest(text: string)

  predicate IdLe(a: Id, b: Id) {
    TextLe(a.text, b.text)
  }

  lemma {:induction false} IdOrder()
    ensures Preorder(IdLe)
    ensures forall a, b :: IdLe(a, b) && IdLe(b, a) ==> a == b
  {
    forall a, b ensures (IdLe(a, b) || IdLe(b, a)) && (IdLe(a, b) && IdLe(b, a) ==> a == b) {
      TextLeTotal(a.text, b.text);
    }
    forall a, b, c | IdLe(a, b) && IdLe(b, c) ensures IdLe(a, c) {
      TextLeTransitive(a.text, b.text, c.text);
    }
  }

  predicate IsLeast(s: set<Id>, x: Id) {
    x in s && forall y :: y in s ==> IdLe(x, y)
  }

  lemma {:induction false} HasLeast(s: set<Id>) returns (x: Id)
    requires s != {}
    ensures IsLeast(s, x)
  {
    x :| x in s;
    TextLeTotal(x.text, x.text);
    if s != {x} {
      var m := HasLeast(s - {x});
      TextLeTotal(x.text, m.text);
      if IdLe(x, m) {
        forall y | y in s ensures IdLe(x, y) {
          if y != x {
            assert y in s - {x};
            TextLeTransitive(x.text, m.text, y.text);
          }
        }
      } else {
        x := m;
      }
    }
  }

  lemma {:induction false} LeastExists(s: set<Id>)
    requires s != {}
    ensures exists x :: IsLeast(s, x)
    ensures forall x, y :: IsLeast(s, x) && IsLeast(s, y) ==> x == y
  {
    var x := HasLeast(s);
    IdOrder();
  }

  function Least(s: set<Id>): (x: Id)
    requires s != {}
    ensures x in s && forall y :: y in s ==> IdLe(x, y)
  {
    LeastExists(s);
    var x :| x in s && IsLeast(s, x);
    x
  }

  /** `sorted(s)` for a set of ids. */
  function SortedIds(s: set<Id>): (r: seq<Id>)
    ensures forall x :: x in r <==> x in s
    ensures |r| == |s|
    ensures Distinct(r) && Sorted(IdLe, r)
  {
    if s == {} then []
    else
      var x := Least(s);
      [x] + SortedIds(s - {x})
  }

  /** Distinct ids in growing order. */
  function Nth(i: nat): Id {
    Digest(seq(i, j requires 0 <= j < i => 'a'))
  }

  lemma {:induction false} NthGrows(i: nat, j: nat)
    requires i <= j
    ensures IdLe(Nth(i), Nth(j)) && (i < j ==> Nth(i) != Nth(j))
    decreases i
  {
    if i < j { assert |Nth(i).text| != |Nth(j).text|; }
    if i > 0 {
      assert Nth(i).text[1..] == Nth(i - 1).text && Nth(j).text[1..] == Nth(j - 1).text;
      NthGrows(i - 1, j - 1);
    }
  }
}
