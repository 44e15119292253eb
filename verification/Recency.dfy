/** A bounded least-recently-used store as a sequence: the least recent entry first. */
module Recency {
  import opened Wrappers

  datatype Entry<K, V> = Entry(key: K, value: V, size: nat)

  datatype Limits = Limits(entries: nat, bytes: nat)

  function Total<K, V>(s: seq<Entry<K, V>>): nat {
    if s == [] then 0 else s[0].size + Total(s[1..])
  }

  predicate Within<K, V>(s: seq<Entry<K, V>>, limits: Limits) {
    |s| <= limits.entries && Total(s) <= limits.bytes
  }

  ghost predicate Keyed<K, V>(s: seq<Entry<K, V>>) {
    forall i, j :: 0 <= i < j < |s| ==> s[i].key != s[j].key
  }

  predicate Has<K(==), V>(s: seq<Entry<K, V>>, key: K) {
    exists i :: 0 <= i < |s| && s[i].key == key
  }

  function Find<K(==), V>(s: seq<Entry<K, V>>, key: K): (r: Option<nat>)
    ensures r.Some? <==> Has(s, key)
    ensures r.Some? ==> r.value < |s| && s[r.value].key == key
  {
    if s == [] then None
    else if s[0].key == key then Some(0)
    else
      assert forall i :: 1 <= i < |s| ==> s[i] == s[1..][i - 1];
      match Find(s[1..], key) case None => None case Some(i) => assert s[1..][i] == s[i + 1]; Some(i + 1)
  }

  /** `s` with the entry under `key` taken out, if there is one. */
  function Without<K(==), V>(s: seq<Entry<K, V>>, key: K): (r: seq<Entry<K, V>>)
    ensures |r| <= |s|
  {
    if s == [] then []
    else if s[0].key == key then Without(s[1..], key)
    else [s[0]] + Without(s[1..], key)
  }

  /** Drops from the least recent end until the limits hold. */
  function Evicted<K, V>(s: seq<Entry<K, V>>, limits: Limits): seq<Entry<K, V>> {
    if s == [] || Within(s, limits) then s else Evicted(s[1..], limits)
  }

  /** Storing makes the entry the most recent one, in place of an earlier one under the same key. */
  function Stored<K(==), V>(s: seq<Entry<K, V>>, e: Entry<K, V>, limits: Limits): seq<Entry<K, V>> {
    Evicted(Without(s, e.key) + [e], limits)
  }

  /** A hit makes its entry the most recent one. */
  function Touched<K(==), V>(s: seq<Entry<K, V>>, key: K): seq<Entry<K, V>> {
    match Find(s, key) case None => s case Some(i) => Without(s, key) + [s[i]]
  }

  // ---------------------------------------------------------------- taking out

  lemma {:induction false} TotalConcat<K, V>(s: seq<Entry<K, V>>, t: seq<Entry<K, V>>)
    ensures Total(s + t) == Total(s) + Total(t)
  {
    if s == [] {
      assert s + t == t;
    } else {
      assert (s + t)[1..] == s[1..] + t;
      TotalConcat(s[1..], t);
    }
  }

  lemma {:induction false} WithoutConcat<K, V>(s: seq<Entry<K, V>>, t: seq<Entry<K, V>>, key: K)
    ensures Without(s + t, key) == Without(s, key) + Without(t, key)
  {
    if s == [] {
      assert s + t == t;
    } else {
      assert (s + t)[1..] == s[1..] + t;
      WithoutConcat(s[1..], t, key);
    }
  }

  lemma {:induction false} WithoutAbsent<K, V>(s: seq<Entry<K, V>>, key: K)
    requires !Has(s, key)
    ensures Without(s, key) == s
  {
    if s != [] {
      assert s[0].key != key;
      HasTail(s, key);
      WithoutAbsent(s[1..], key);
    }
  }

  lemma {:induction false} HasTail<K, V>(s: seq<Entry<K, V>>, key: K)
    requires s != []
    ensures Has(s, key) <==> s[0].key == key || Has(s[1..], key)
  {
    if Has(s[1..], key) {
      var i :| 0 <= i < |s| - 1 && s[1..][i].key == key;
      assert s[i + 1].key == key;
    }
    if Has(s, key) && s[0].key != key {
      var i :| 0 <= i < |s| && s[i].key == key;
      assert s[1..][i - 1].key == key;
    }
  }

  /** Taking out is taking out one place, and that place alone. */
  lemma {:induction false} WithoutPresent<K, V>(s: seq<Entry<K, V>>, i: nat)
    requires Keyed(s) && i < |s|
    ensures Without(s, s[i].key) == s[..i] + s[i + 1..]
  {
    var key := s[i].key;
    assert s == s[..i] + [s[i]] + s[i + 1..];
    assert !Has(s[..i], key) && !Has(s[i + 1..], key);
    WithoutConcat(s[..i] + [s[i]], s[i + 1..], key);
    WithoutConcat(s[..i], [s[i]], key);
    WithoutAbsent(s[..i], key);
    WithoutAbsent(s[i + 1..], key);
  }

  lemma {:induction false} WithoutHas<K, V>(s: seq<Entry<K, V>>, key: K, other: K)
    ensures Has(Without(s, key), other) <==> Has(s, other) && other != key
  {
    if s != [] {
      WithoutHas(s[1..], key, other);
      HasTail(s, other);
      var r := Without(s[1..], key);
      HasTail([s[0]] + r, other);
      assert ([s[0]] + r)[1..] == r;
    }
  }

  lemma {:induction false} WithoutIn<K, V>(s: seq<Entry<K, V>>, key: K, e: Entry<K, V>)
    ensures e in Without(s, key) <==> e in s && e.key != key
  {
    if s != [] {
      WithoutIn(s[1..], key, e);
      assert s == [s[0]] + s[1..];
    }
  }

  lemma {:induction false} WithoutKeyed<K, V>(s: seq<Entry<K, V>>, key: K)
    requires Keyed(s)
    ensures Keyed(Without(s, key))
  {
    if s != [] {
      WithoutKeyed(s[1..], key);
      var r := Without(s[1..], key);
      forall j | 0 <= j < |r| ensures r[j].key != s[0].key {
        WithoutIn(s[1..], key, r[j]);
        assert r[j] in s[1..];
      }
    }
  }

  lemma {:induction false} KeyedSnoc<K, V>(s: seq<Entry<K, V>>, e: Entry<K, V>)
    requires Keyed(s)
    ensures Keyed(Without(s, e.key) + [e])
  {
    var w := Without(s, e.key);
    WithoutKeyed(s, e.key);
    forall j | 0 <= j < |w| ensures w[j].key != e.key {
      WithoutIn(s, e.key, w[j]);
    }
  }

  lemma {:induction false} TakenOutTotal<K, V>(s: seq<Entry<K, V>>, i: nat)
    requires Keyed(s) && i < |s|
    ensures Total(Without(s, s[i].key)) == Total(s) - s[i].size
    ensures |Without(s, s[i].key)| == |s| - 1
  {
    WithoutPresent(s, i);
    assert s == s[..i] + ([s[i]] + s[i + 1..]);
    TotalConcat(s[..i], [s[i]] + s[i + 1..]);
    TotalConcat([s[i]], s[i + 1..]);
    TotalConcat(s[..i], s[i + 1..]);
  }

  lemma {:induction false} WithoutWithin<K, V>(s: seq<Entry<K, V>>, key: K)
    ensures Total(Without(s, key)) <= Total(s)
  {
    if s != [] { WithoutWithin(s[1..], key); }
  }

  lemma {:induction false} TouchedIsSame<K, V>(s: seq<Entry<K, V>>, key: K)
    requires Keyed(s) && Has(s, key)
    ensures Keyed(Touched(s, key)) && Total(Touched(s, key)) == Total(s) && |Touched(s, key)| == |s|
    ensures Touched(s, key)[|s| - 1].key == key
  {
    var i := Find(s, key).value;
    TakenOutTotal(s, i);
    TotalConcat(Without(s, key), [s[i]]);
    KeyedSnoc(s, s[i]);
  }

  lemma {:induction false} TouchedIn<K, V>(s: seq<Entry<K, V>>, key: K, e: Entry<K, V>)
    requires Keyed(s) && Has(s, key)
    ensures e in Touched(s, key) <==> e in s
  {
    var i := Find(s, key).value;
    WithoutIn(s, key, e);
  }

  // ---------------------------------------------------------------- eviction

  ghost predicate SuffixOf<K, V>(s: seq<Entry<K, V>>, t: seq<Entry<K, V>>) {
    |s| <= |t| && s == t[|t| - |s|..]
  }

  lemma {:induction false} SuffixIn<K, V>(s: seq<Entry<K, V>>, t: seq<Entry<K, V>>, x: Entry<K, V>)
    requires SuffixOf(s, t) && x in s
    ensures x in t
  {
  }

  /** What goes is the shortest least recent run whose going restores the limits. */
  lemma {:induction false} EvictsShortestRun<K, V>(s: seq<Entry<K, V>>, limits: Limits)
    ensures SuffixOf(Evicted(s, limits), s) && Within(Evicted(s, limits), limits)
    ensures forall n :: 0 <= n < |s| - |Evicted(s, limits)| ==> !Within(s[n..], limits)
  {
    if !(s == [] || Within(s, limits)) {
      EvictsShortestRun(s[1..], limits);
      forall n | 0 <= n < |s| - |Evicted(s, limits)| ensures !Within(s[n..], limits) {
        if n == 0 { assert s[0..] == s; } else { assert s[n..] == s[1..][n - 1..]; }
      }
    }
  }

  /** The other way round: the suffix that fits while no longer one does is what eviction leaves. */
  lemma {:induction false} LongestSuffixIsEvicted<K, V>(s: seq<Entry<K, V>>, t: seq<Entry<K, V>>, limits: Limits)
    requires SuffixOf(t, s) && Within(t, limits)
    ensures SuffixOf(t, Evicted(s, limits))
  {
    if !(s == [] || Within(s, limits)) {
      assert |t| == |s| ==> t == s;
      LongestSuffixIsEvicted(s[1..], t, limits);
    }
  }

  /** A just-stored entry that can fit at all survives, as the most recent one. */
  lemma {:induction false} NewestSurvives<K, V>(s: seq<Entry<K, V>>, e: Entry<K, V>, limits: Limits)
    requires e.size <= limits.bytes && limits.entries >= 1
    ensures Evicted(s + [e], limits) != []
    ensures Evicted(s + [e], limits)[|Evicted(s + [e], limits)| - 1] == e
  {
    var all := s + [e];
    assert Total([e]) == e.size;
    assert all[|all| - 1..] == [e];
    EvictsShortestRun(all, limits);
    LongestSuffixIsEvicted(all, [e], limits);
  }

  /** Everything a store keeps: distinct keys, the limits, no entry but the old ones and the new. */
  lemma {:induction false} StoredMeans<K, V>(s: seq<Entry<K, V>>, e: Entry<K, V>, limits: Limits)
    requires Keyed(s) && e.size <= limits.bytes && limits.entries >= 1
    ensures var r := Stored(s, e, limits);
      && Keyed(r) && Within(r, limits) && r != [] && r[|r| - 1] == e
      && (forall x :: x in r ==> x == e || (x in s && x.key != e.key))
      && (Within(Without(s, e.key) + [e], limits) ==> r == Without(s, e.key) + [e])
  {
    var w := Without(s, e.key);
    KeyedSnoc(s, e);
    NewestSurvives(w, e, limits);
    EvictsShortestRun(w + [e], limits);
    forall x | x in Stored(s, e, limits) ensures x == e || (x in s && x.key != e.key) {
      SuffixIn(Stored(s, e, limits), w + [e], x);
      WithoutIn(s, e.key, x);
    }
  }

  // ---------------------------------------------------------------- a larger store never misses more

  function EntryOf<K, V>(load: K -> (V, nat), key: K): Entry<K, V> {
    Entry(key, load(key).0, load(key).1)
  }

  /** One lookup through the store: a hit is touched, a miss is loaded and stored if it can fit. */
  function LookedUp<K(==), V>(s: seq<Entry<K, V>>, load: K -> (V, nat), key: K, limits: Limits): seq<Entry<K, V>> {
    if Has(s, key) then Touched(s, key)
    else if load(key).1 <= limits.bytes then Stored(s, EntryOf(load, key), limits)
    else s
  }

  function RunOf<K(==), V>(s: seq<Entry<K, V>>, load: K -> (V, nat), keys: seq<K>, limits: Limits): seq<Entry<K, V>>
    decreases |keys|
  {
    if keys == [] then s else RunOf(LookedUp(s, load, keys[0], limits), load, keys[1..], limits)
  }

  lemma {:induction false} SuffixWithout<K, V>(s: seq<Entry<K, V>>, t: seq<Entry<K, V>>, key: K)
    requires SuffixOf(s, t)
    ensures SuffixOf(Without(s, key), Without(t, key))
  {
    var front := t[..|t| - |s|];
    assert t == front + s;
    WithoutConcat(front, s, key);
    var w, all := Without(s, key), Without(t, key);
    assert all[|all| - |w|..] == w;
  }

  lemma {:induction false} SuffixSnoc<K, V>(s: seq<Entry<K, V>>, t: seq<Entry<K, V>>, e: Entry<K, V>)
    requires SuffixOf(s, t)
    ensures SuffixOf(s + [e], t + [e])
  {
  }

  lemma {:induction false} SuffixTransitive<K, V>(r: seq<Entry<K, V>>, s: seq<Entry<K, V>>, t: seq<Entry<K, V>>)
    requires SuffixOf(r, s) && SuffixOf(s, t)
    ensures SuffixOf(r, t)
  {
  }

  lemma {:induction false} SuffixKeys<K, V>(s: seq<Entry<K, V>>, t: seq<Entry<K, V>>, key: K)
    requires SuffixOf(s, t) && Keyed(t) && Has(s, key)
    ensures Has(t, key) && t[Find(t, key).value] == s[Find(s, key).value]
  {
    var i := Find(s, key).value;
    assert t[|t| - |s| + i] == s[i];
    var j := Find(t, key).value;
  }

  /** Every entry is what loading its key gives. */
  ghost predicate Loaded<K, V>(s: seq<Entry<K, V>>, load: K -> (V, nat)) {
    forall e :: e in s ==> e == EntryOf(load, e.key)
  }

  lemma {:induction false} LookedUpMeans<K, V>(s: seq<Entry<K, V>>, load: K -> (V, nat), key: K, limits: Limits)
    requires Keyed(s) && Within(s, limits) && Loaded(s, load) && limits.entries >= 1
    ensures var r := LookedUp(s, load, key, limits); Keyed(r) && Within(r, limits) && Loaded(r, load)
  {
    if Has(s, key) {
      TouchedIsSame(s, key);
      forall e | e in Touched(s, key) ensures e == EntryOf(load, e.key) {
        TouchedIn(s, key, e);
      }
    } else if load(key).1 <= limits.bytes {
      StoredMeans(s, EntryOf(load, key), limits);
    }
  }

  lemma {:induction false} TotalAtLeast<K, V>(s: seq<Entry<K, V>>, i: nat)
    requires i < |s|
    ensures s[i].size <= Total(s)
  {
    if i > 0 { TotalAtLeast(s[1..], i - 1); }
  }

  /** What can never fit is not in the store. */
  lemma {:induction false} TooBigIsNowhere<K, V>(s: seq<Entry<K, V>>, load: K -> (V, nat), key: K, limits: Limits)
    requires Within(s, limits) && Loaded(s, load) && load(key).1 > limits.bytes
    ensures !Has(s, key)
  {
    forall i | 0 <= i < |s| ensures s[i].key != key {
      TotalAtLeast(s, i);
      assert s[i] in s;
    }
  }

  /** One lookup keeps a smaller store inside a larger one, as its most recent part. */
  lemma {:induction false} StepKeepsInclusion<K, V>(s: seq<Entry<K, V>>, t: seq<Entry<K, V>>, load: K -> (V, nat), key: K, small: Limits, large: Limits)
    requires Keyed(t) && SuffixOf(s, t) && Loaded(s, load) && Loaded(t, load)
    requires small.entries <= large.entries && small.bytes <= large.bytes && small.entries >= 1
    requires load(key).1 <= small.bytes || load(key).1 > large.bytes
    requires Within(t, large)
    ensures SuffixOf(LookedUp(s, load, key, small), LookedUp(t, load, key, large))
  {
    var e := EntryOf(load, key);
    if load(key).1 > large.bytes {
      TooBigIsNowhere(t, load, key, large);
      if Has(s, key) { SuffixKeys(s, t, key); }
      return;
    }
    SuffixWithout(s, t, key);
    SuffixSnoc(Without(s, key), Without(t, key), e);
    if Has(s, key) {
      SuffixKeys(s, t, key);
    } else {
      var small1 := Stored(s, e, small);
      EvictsShortestRun(Without(s, key) + [e], small);
      SuffixTransitive(small1, Without(s, key) + [e], Without(t, key) + [e]);
      if !Has(t, key) {
        LongestSuffixIsEvicted(Without(t, key) + [e], small1, large);
      }
    }
  }

  /**
    Over every run of lookups whose loads fit both stores or neither, the smaller store is the most
    recent part of the larger one: raising a limit never turns a hit into a miss.
  */
  lemma {:induction false} LargerNeverMissesMore<K, V>(
      s: seq<Entry<K, V>>, t: seq<Entry<K, V>>, load: K -> (V, nat), keys: seq<K>, small: Limits, large: Limits)
    requires Keyed(s) && Keyed(t) && Within(s, small) && Within(t, large) && SuffixOf(s, t)
    requires Loaded(s, load) && Loaded(t, load)
    requires small.entries <= large.entries && small.bytes <= large.bytes && small.entries >= 1
    requires forall key :: key in keys ==> load(key).1 <= small.bytes || load(key).1 > large.bytes
    ensures SuffixOf(RunOf(s, load, keys, small), RunOf(t, load, keys, large))
    ensures Keyed(RunOf(t, load, keys, large))
    ensures forall key :: Has(RunOf(s, load, keys, small), key) ==> Has(RunOf(t, load, keys, large), key)
    decreases |keys|
  {
    if keys != [] {
      var key := keys[0];
      StepKeepsInclusion(s, t, load, key, small, large);
      LookedUpMeans(s, load, key, small);
      LookedUpMeans(t, load, key, large);
      LargerNeverMissesMore(LookedUp(s, load, key, small), LookedUp(t, load, key, large), load, keys[1..], small, large);
    } else {
      forall key | Has(s, key) ensures Has(t, key) {
        SuffixKeys(s, t, key);
      }
    }
  }

  lemma {:induction false} LoneStore<K, V>(e: Entry<K, V>, limits: Limits)
    requires e.size <= limits.bytes && limits.entries >= 1
    ensures Total([e]) == e.size && Within([e], limits) && Stored([], e, limits) == [e]
  {
    var none: seq<Entry<K, V>> := [];
    assert [e][1..] == none && Total([e]) == e.size + Total(none);
    assert Without(none, e.key) == none && none + [e] == [e];
  }

  /** Two entries too big to stay together: storing the second drives the first out. */
  lemma {:induction false} SecondDrivesOut<K, V>(a: Entry<K, V>, b: Entry<K, V>, limits: Limits)
    requires a.key != b.key && a.size + b.size > limits.bytes && b.size <= limits.bytes && limits.entries >= 1
    ensures Stored([a], b, limits) == [b]
  {
    LoneStore(b, limits);
    assert Without([a], b.key) == [a] by { assert [a][1..] == []; }
    assert [a] + [b] == [a, b] && [a, b][1..] == [b];
    assert Total([a, b]) == a.size + Total([b]);
    assert Evicted([a, b], limits) == Evicted([b], limits);
  }

  /**
    And the other way round: whenever some load can fall between the two byte limits, raising the
    limit does turn a hit into a miss. One key is looked up, then one that only the larger store
    takes in, driving out the first; looking the first up again hits the smaller store alone.
  */
  lemma {:induction false} BetweenLimitsMayMiss(small: Limits, large: Limits)
    returns (load: bool -> (nat, nat), keys: seq<bool>, again: bool)
    requires 1 <= small.bytes < large.bytes && small.entries >= 1 && large.entries >= 1
    ensures again in keys && load(again).1 <= small.bytes
    ensures Has(RunOf([], load, keys, small), again) && !Has(RunOf([], load, keys, large), again)
  {
    load := (big: bool) => (0, if big then large.bytes else small.bytes);
    keys, again := [false, true], false;
    var a, b := EntryOf(load, false), EntryOf(load, true);
    LoneStore(a, small);
    LoneStore(a, large);
    SecondDrivesOut(a, b, large);
    assert keys[1..] == [true] && [true][1..] == [];
    assert LookedUp([], load, false, small) == [a] && LookedUp([], load, false, large) == [a];
    assert LookedUp([a], load, true, small) == [a] && LookedUp([a], load, true, large) == [b];
    assert RunOf([a], load, [true], small) == RunOf([a], load, [], small) == [a];
    assert RunOf([a], load, [true], large) == RunOf([b], load, [], large) == [b];
    assert [a][0].key == again;
  }
}
