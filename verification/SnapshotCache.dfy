/** The bounded cache of shard bytes, keyed by immutable identity and re-hashed on every hit. */
module SnapshotCache {
  import opened Wrappers
  import opened Ordering
  import opened Recency

  type Payload = seq<nat>

  datatype CacheKey = CacheKey(schema: string, profile: string, generation: string, sha256: string, path: string)

  datatype CacheError = CacheMismatch

  type Stock = seq<Entry<CacheKey, Payload>>

  ghost predicate Injective(digest: Payload -> string) {
    forall a, b :: digest(a) == digest(b) ==> a == b
  }

  predicate Measured(s: Stock) {
    forall i :: 0 <= i < |s| ==> s[i].size == |s[i].value|
  }

  /** Every entry hashes to its label. */
  predicate Honest(s: Stock, digest: Payload -> string) {
    forall i :: 0 <= i < |s| ==> digest(s[i].value) == s[i].key.sha256
  }

  function EntryFor(key: CacheKey, data: Payload): Entry<CacheKey, Payload> {
    Entry(key, data, |data|)
  }

  function OfGeneration(s: Stock, generation: string): Stock {
    Keep((e: Entry<CacheKey, Payload>) => e.key.generation == generation, s)
  }

  function OtherGenerations(s: Stock, generation: string): Stock {
    Keep((e: Entry<CacheKey, Payload>) => e.key.generation != generation, s)
  }

  /** Taking out the first entry of a generation leaves the others of it, and all of the rest. */
  lemma {:induction false} FirstOfGeneration(s: Stock, generation: string)
    requires Keyed(s) && OfGeneration(s, generation) != []
    ensures var key := OfGeneration(s, generation)[0].key;
      && Has(s, key)
      && OfGeneration(Without(s, key), generation) == OfGeneration(s, generation)[1..]
      && OtherGenerations(Without(s, key), generation) == OtherGenerations(s, generation)
      && |Without(s, key)| == |s| - 1
  {
    var key := OfGeneration(s, generation)[0].key;
    HasTail(s, key);
    if s[0].key.generation == generation {
      assert !Has(s[1..], key);
      WithoutAbsent(s[1..], key);
    } else {
      FirstOfGeneration(s[1..], generation);
      var w := Without(s[1..], key);
      assert ([s[0]] + w)[1..] == w;
    }
  }

  lemma {:induction false} NoneOfGeneration(s: Stock, generation: string)
    requires OfGeneration(s, generation) == []
    ensures OtherGenerations(s, generation) == s
  {
    if s != [] {
      NoneOfGeneration(s[1..], generation);
      assert s == [s[0]] + s[1..];
    }
  }

  class Cache {
    const limits: Limits
    const digest: Payload -> string
    var entries: Stock
    var bytesUsed: nat
    var hits: nat
    var misses: nat
    var evictions: nat
    var mismatches: nat

    /** What holds even while an eviction is due. */
    ghost predicate Counted() reads this {
      && limits.entries >= 1 && limits.bytes >= 1
      && Keyed(entries) && Measured(entries) && bytesUsed == Total(entries)
    }

    ghost predicate Valid() reads this {
      Counted() && Within(entries, limits)
    }

    constructor (limits: Limits, digest: Payload -> string)
      requires limits.entries >= 1 && limits.bytes >= 1
      ensures Valid() && entries == [] && this.limits == limits && this.digest == digest
    {
      this.limits, this.digest := limits, digest;
      entries, bytesUsed, hits, misses, evictions, mismatches := [], 0, 0, 0, 0, 0;
    }

    /** Drops least recent entries while a limit is exceeded. */
    method Evict()
      requires Counted()
      modifies this`entries, this`bytesUsed, this`evictions
      ensures Valid() && entries == Evicted(old(entries), limits)
      ensures evictions - old(evictions) == |old(entries)| - |entries|
    {
      while entries != [] && (|entries| > limits.entries || bytesUsed > limits.bytes)
        invariant Counted()
        invariant Evicted(entries, limits) == Evicted(old(entries), limits)
        invariant evictions - old(evictions) == |old(entries)| - |entries|
        decreases |entries|
      {
        bytesUsed := bytesUsed - entries[0].size;
        entries := entries[1..];
        evictions := evictions + 1;
      }
    }

    /**
      Stores bytes under their own digest only. Bytes that can never fit are not stored, and then
      everything stays as it was; otherwise the entry is the most recent one afterwards.
    */
    method Put(key: CacheKey, data: Payload) returns (r: Result<bool, CacheError>)
      requires Valid()
      modifies this`entries, this`bytesUsed, this`evictions
      ensures Valid()
      ensures digest(data) != key.sha256 <==> r == Failure(CacheMismatch)
      ensures r.Success? ==> r.value == (|data| <= limits.bytes)
      ensures r != Success(true) ==> entries == old(entries) && bytesUsed == old(bytesUsed) && evictions == old(evictions)
      ensures r == Success(true) ==> entries == Stored(old(entries), EntryFor(key, data), limits)
      ensures r == Success(true) ==> entries != [] && entries[|entries| - 1] == EntryFor(key, data)
      ensures Honest(old(entries), digest) ==> Honest(entries, digest)
    {
      if digest(data) != key.sha256 { return Failure(CacheMismatch); }
      if |data| > limits.bytes { return Success(false); }
      ghost var e := EntryFor(key, data);
      ghost var was := entries;
      var previous := TakeOut(key);
      KeyedSnoc(was, e);
      TotalConcat(entries, [e]);
      NewestSurvives(entries, e, limits);
      entries := entries + [Entry(key, data, |data|)];
      bytesUsed := bytesUsed + |data|;
      Evict();
      HonestStored(was, e, limits, digest);
      r := Success(true);
    }

    /** Takes one entry out, if it is there. */
    method TakeOut(key: CacheKey) returns (present: bool)
      requires Valid()
      modifies this`entries, this`bytesUsed
      ensures Valid() && entries == Without(old(entries), key) && present == Has(old(entries), key)
    {
      var found := Find(entries, key);
      match found {
        case None =>
          WithoutAbsent(entries, key);
          present := false;
        case Some(i) =>
          WithoutPresent(entries, i);
          TakenOutTotal(entries, i);
          WithoutKeyed(entries, key);
          bytesUsed := bytesUsed - entries[i].size;
          entries := entries[..i] + entries[i + 1..];
          present := true;
      }
    }

    /**
      Only bytes that hash to the key's digest are returned. An entry that does not is dropped and
      counted as a miss; a hit makes its entry the most recent one.
    */
    method Get(key: CacheKey) returns (r: Option<Payload>)
      requires Valid()
      modifies this`entries, this`bytesUsed, this`hits, this`misses, this`mismatches
      ensures Valid()
      ensures r.Some? ==> digest(r.value) == key.sha256 && EntryFor(key, r.value) in old(entries)
      ensures r.Some? ==> entries == Touched(old(entries), key)
      ensures r.None? ==> entries == Without(old(entries), key)
      ensures hits + misses == old(hits) + old(misses) + 1 && hits == old(hits) + (if r.Some? then 1 else 0)
      ensures Honest(old(entries), digest) ==>
        r.Some? == Has(old(entries), key) && mismatches == old(mismatches) && Honest(entries, digest)
    {
      var found := Find(entries, key);
      match found {
        case None =>
          WithoutAbsent(entries, key);
          misses := misses + 1;
          return None;
        case Some(i) =>
          var payload := entries[i].value;
          WithoutPresent(entries, i);
          if digest(payload) != key.sha256 {
            var present := TakeOut(key);
            mismatches := mismatches + 1;
            misses := misses + 1;
            return None;
          }
          TouchedIsSame(entries, key);
          entries := entries[..i] + entries[i + 1..] + [entries[i]];
          hits := hits + 1;
          assert entries == Touched(old(entries), key);
          r := Some(payload);
      }
    }

    /** Drops every entry of one generation, and only those. */
    method EvictGeneration(generation: string) returns (dropped: nat)
      requires Valid()
      modifies this`entries, this`bytesUsed
      ensures Valid() && entries == OtherGenerations(old(entries), generation)
      ensures dropped == |old(entries)| - |entries|
    {
      var doomed := OfGeneration(entries, generation);
      for i := 0 to |doomed|
        invariant Valid() && |entries| == |old(entries)| - i
        invariant OfGeneration(entries, generation) == doomed[i..]
        invariant OtherGenerations(entries, generation) == OtherGenerations(old(entries), generation)
      {
        FirstOfGeneration(entries, generation);
        var present := TakeOut(doomed[i].key);
      }
      NoneOfGeneration(entries, generation);
      dropped := |doomed|;
    }

    method Clear()
      requires Valid()
      modifies this`entries, this`bytesUsed
      ensures Valid() && entries == []
    {
      entries, bytesUsed := [], 0;
    }
  }

  lemma {:induction false} HonestStored(s: Stock, e: Entry<CacheKey, Payload>, limits: Limits, digest: Payload -> string)
    requires Keyed(s) && e.size <= limits.bytes && limits.entries >= 1
    requires digest(e.value) == e.key.sha256
    ensures Honest(s, digest) ==> Honest(Stored(s, e, limits), digest)
  {
    StoredMeans(s, e, limits);
    var r := Stored(s, e, limits);
    if Honest(s, digest) {
      forall i | 0 <= i < |r| ensures digest(r[i].value) == r[i].key.sha256 {
        assert r[i] in r;
      }
    }
  }

  /** What a deterministic loader makes of a key, with its size. */
  function Loading(load: CacheKey -> Payload): CacheKey -> (Payload, nat) {
    (key: CacheKey) => (load(key), |load(key)|)
  }

  /**
    One lookup through the cache. Whatever the cache has been through, a loader that returns the
    keyed bytes is answered as if there were no cache, and loaded bytes under a wrong label are
    refused. The stock afterwards is the one `Recency.LookedUp` gives.
  */
  method Lookup(cache: Cache, key: CacheKey, load: CacheKey -> Payload) returns (r: Result<(Payload, bool), CacheError>)
    requires cache.Valid() && Honest(cache.entries, cache.digest)
    modifies cache
    ensures cache.Valid() && Honest(cache.entries, cache.digest) && cache.mismatches == old(cache.mismatches)
    ensures r.Failure? <==> !Has(old(cache.entries), key) && cache.digest(load(key)) != key.sha256
    ensures r.Success? ==> cache.digest(r.value.0) == key.sha256 && r.value.1 == Has(old(cache.entries), key)
    ensures r.Success? && Injective(cache.digest) && cache.digest(load(key)) == key.sha256 ==> r.value.0 == load(key)
    ensures r.Success? ==> cache.entries == LookedUp(old(cache.entries), Loading(load), key, cache.limits)
    ensures r.Failure? ==> cache.entries == old(cache.entries)
  {
    WithoutAbsentOr(cache.entries, key);
    var payload := cache.Get(key);
    if payload.Some? { return Success((payload.value, true)); }
    var loaded := load(key);
    var stored := cache.Put(key, loaded);
    if stored.Failure? {
      assert stored.error == CacheMismatch;
      return Failure(stored.error);
    }
    r := Success((loaded, false));
  }

  lemma {:induction false} WithoutAbsentOr(s: Stock, key: CacheKey)
    ensures Has(s, key) || Without(s, key) == s
  {
    if !Has(s, key) { WithoutAbsent(s, key); }
  }
}
