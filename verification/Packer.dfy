/**
  Packing a response inside a hard byte cap.

  A document is measured as compact JSON (section 5 of RFC 8259): an object or an array is its
  members' bytes, the commas between them and two brackets. An item is its encoded size.
*/
module Packer {
  import opened Wrappers
  import opened GraphModel

  const MIN_BYTES := 512
  const MAX_BYTES := 32768
  const DEFAULT_MAX_BYTES := 8192

  datatype Item = Item(text: string, bytes: nat)

  /**
    The value under a trimmable key. `Other` is a value that is not a list; `listed` is what
    `list(value or [])` makes of it, or nothing when that raises.
  */
  datatype Field = Missing | Items(items: seq<Item>) | Other(bytes: nat, listed: Option<seq<Item>>)

  /** The value under `truncated`. */
  datatype Flag = NoFlag | Bool(value: bool) | Odd(bytes: nat)

  /** The trimmable collections, least important first. */
  const NODES := 0
  const EDGES := 1
  const UNRESOLVED := 2
  const CANDIDATES := 3
  const WARNINGS := 4
  const KEYS := 5

  /** `rest` is the encoded size of every other member, key, colon and value. */
  datatype Doc = Doc(rest: seq<nat>, flag: Flag, fields: seq<Field>) {
    predicate Valid() {
      |fields| == KEYS && forall i :: 0 <= i < KEYS ==> Real(fields[i])
    }
  }

  /** Every encoded JSON value has at least one byte. */
  predicate Real(f: Field) {
    f.Items? ==> forall item :: item in f.items ==> item.bytes >= 1
  }

  // ---------------------------------------------------------------- size

  function KeyBytes(key: nat): nat {
    match key case 0 => 5 case 1 => 5 case 2 => 10 case 3 => 10 case _ => 8
  }

  /** Each item with the comma after it. */
  function WithCommas(items: seq<Item>): nat {
    if items == [] then 0 else WithCommas(items[..|items| - 1]) + items[|items| - 1].bytes + 1
  }

  function ArrayBytes(items: seq<Item>): nat {
    if items == [] then 2 else 1 + WithCommas(items)
  }

  /** A member with the comma after it: quoted key, colon, value, comma. */
  function Member(keyBytes: nat, valueBytes: nat): nat {
    keyBytes + 3 + valueBytes + 1
  }

  function FieldCost(key: nat, f: Field): nat {
    match f
    case Missing => 0
    case Items(items) => Member(KeyBytes(key), ArrayBytes(items))
    case Other(bytes, _) => Member(KeyBytes(key), bytes)
  }

  function FlagCost(flag: Flag): nat {
    match flag
    case NoFlag => 0
    case Bool(v) => Member(9, if v then 4 else 5)
    case Odd(bytes) => Member(9, bytes)
  }

  function RestCost(rest: seq<nat>): nat {
    if rest == [] then 0 else rest[0] + 1 + RestCost(rest[1..])
  }

  function FieldsCost(fields: seq<Field>): nat
    requires |fields| == KEYS
  {
    FieldCost(0, fields[0]) + FieldCost(1, fields[1]) + FieldCost(2, fields[2])
    + FieldCost(3, fields[3]) + FieldCost(4, fields[4])
  }

  function Members(d: Doc): nat
    requires d.Valid()
  {
    RestCost(d.rest) + FlagCost(d.flag) + FieldsCost(d.fields)
  }

  /** The encoded size of the whole document. */
  function Size(d: Doc): nat
    requires d.Valid()
  {
    if Members(d) == 0 then 2 else 1 + Members(d)
  }

  predicate Fits(d: Doc, cap: nat)
    requires d.Valid()
  {
    Size(d) <= cap
  }

  function FitsIn(cap: nat): Doc -> bool {
    (d: Doc) => d.Valid() && Fits(d, cap)
  }

  // ---------------------------------------------------------------- trimming, one item at a time

  predicate HasItems(f: Field) {
    f.Items? && f.items != []
  }

  /** No trimmable key before `k` has an item left. */
  predicate EmptyBefore(d: Doc, k: nat)
    requires d.Valid() && k <= KEYS
  {
    forall i :: 0 <= i < k ==> !HasItems(d.fields[i])
  }

  function Count(f: Field): nat {
    if f.Items? then |f.items| else 0
  }

  function CountAll(d: Doc): nat
    requires d.Valid()
  {
    Count(d.fields[0]) + Count(d.fields[1]) + Count(d.fields[2]) + Count(d.fields[3]) + Count(d.fields[4])
  }

  /** The first key that has an item. */
  function FirstFull(d: Doc): (k: nat)
    requires d.Valid() && !EmptyBefore(d, KEYS)
    ensures k < KEYS && HasItems(d.fields[k]) && EmptyBefore(d, k)
  {
    if HasItems(d.fields[0]) then 0
    else if HasItems(d.fields[1]) then 1
    else if HasItems(d.fields[2]) then 2
    else if HasItems(d.fields[3]) then 3
    else 4
  }

  /** The document with only the first `n` items under `k`. */
  function Cut(d: Doc, k: nat, n: nat): (r: Doc)
    requires d.Valid() && k < KEYS && n <= Count(d.fields[k])
    ensures r.Valid()
  {
    if d.fields[k].Items? then d.(fields := d.fields[k := Items(d.fields[k].items[..n])]) else d
  }

  lemma {:induction false} CutCounts(d: Doc, k: nat, n: nat)
    requires d.Valid() && k < KEYS && n <= Count(d.fields[k])
    ensures CountAll(Cut(d, k, n)) == CountAll(d) - Count(d.fields[k]) + n
  {
  }

  /**
    The reference packer: while the document does not fit, drop the last item of the first
    collection that still has one.
  */
  function Trimmed(d: Doc, fits: Doc -> bool): (r: Doc)
    requires d.Valid()
    ensures r.Valid() && r.rest == d.rest && r.flag == d.flag
    ensures fits(r) || EmptyBefore(r, KEYS)
    decreases CountAll(d)
  {
    if fits(d) || EmptyBefore(d, KEYS) then d
    else
      var k := FirstFull(d);
      CutCounts(d, k, |d.fields[k].items| - 1);
      Trimmed(Cut(d, k, |d.fields[k].items| - 1), fits)
  }

  // ---------------------------------------------------------------- fewer items, fewer bytes

  lemma {:induction false} PrefixCost(items: seq<Item>, n: nat)
    requires n <= |items|
    ensures WithCommas(items[..n]) <= WithCommas(items)
    ensures n < |items| ==> WithCommas(items[..n]) + items[n].bytes + 1 <= WithCommas(items)
    decreases |items|
  {
    if n < |items| {
      var most := items[..|items| - 1];
      if n < |most| {
        assert most[..n] == items[..n];
        PrefixCost(most, n);
      }
    } else {
      assert items[..n] == items;
    }
  }

  /** A shorter list never takes more bytes; with real items it takes fewer. */
  lemma {:induction false} ShorterIsSmaller(items: seq<Item>, n: nat)
    requires n <= |items| && forall item :: item in items ==> item.bytes >= 1
    ensures ArrayBytes(items[..n]) <= ArrayBytes(items)
  {
    PrefixCost(items, n);
    if n < |items| { PrefixCost(items, 0); }
  }

  lemma {:induction false} CutIsSmaller(d: Doc, k: nat, n: nat)
    requires d.Valid() && k < KEYS && n <= Count(d.fields[k])
    ensures Size(Cut(d, k, n)) <= Size(d)
  {
    if d.fields[k].Items? { ShorterIsSmaller(d.fields[k].items, n); }
  }

  lemma {:induction false} CutTwice(d: Doc, k: nat, m: nat, n: nat)
    requires d.Valid() && k < KEYS && n <= m <= Count(d.fields[k])
    ensures Cut(Cut(d, k, m), k, n) == Cut(d, k, n)
  {
    if d.fields[k].Items? {
      assert d.fields[k].items[..m][..n] == d.fields[k].items[..n];
      assert d.fields[k := Items(d.fields[k].items[..m])][k := Items(d.fields[k].items[..n])]
          == d.fields[k := Items(d.fields[k].items[..n])];
    }
  }

  lemma {:induction false} LongerCutIsBigger(d: Doc, k: nat, n: nat, m: nat)
    requires d.Valid() && k < KEYS && n <= m <= Count(d.fields[k])
    ensures Size(Cut(d, k, n)) <= Size(Cut(d, k, m))
  {
    CutTwice(d, k, m, n);
    CutIsSmaller(Cut(d, k, m), k, n);
  }

  // ---------------------------------------------------------------- the binary search finds the reference

  /** Keeping more than `n` items under `k` does not fit. */
  ghost predicate TooMany(d: Doc, k: nat, n: nat, fits: Doc -> bool)
    requires d.Valid() && k < KEYS
  {
    forall m :: n < m <= Count(d.fields[k]) ==> Overflows(d, k, m, fits)
  }

  predicate Overflows(d: Doc, k: nat, m: nat, fits: Doc -> bool)
    requires d.Valid() && k < KEYS && m <= Count(d.fields[k])
  {
    !fits(Cut(d, k, m))
  }

  /** Cutting at once to the longest prefix that fits comes to what one item at a time comes to. */
  lemma {:induction false} CutAtOnce(d: Doc, k: nat, n: nat, fits: Doc -> bool)
    requires d.Valid() && k < KEYS && EmptyBefore(d, k) && n <= Count(d.fields[k])
    requires TooMany(d, k, n, fits)
    ensures Trimmed(Cut(d, k, n), fits) == Trimmed(d, fits)
    decreases Count(d.fields[k])
  {
    var all := Count(d.fields[k]);
    if n == all {
      CutWhole(d, k);
      SameTrim(Cut(d, k, n), d, fits);
    } else {
      var one := Cut(d, k, all - 1);
      CutOneStep(d, k, n, fits);
      CutTwice(d, k, all - 1, n);
      CutAtOnce(one, k, n, fits);
      SameTrim(Cut(one, k, n), Cut(d, k, n), fits);
    }
  }

  lemma {:induction false} SameTrim(a: Doc, b: Doc, fits: Doc -> bool)
    requires a.Valid() && b.Valid() && a == b
    ensures Trimmed(a, fits) == Trimmed(b, fits)
  {
  }

  lemma {:induction false} CutOneStep(d: Doc, k: nat, n: nat, fits: Doc -> bool)
    requires d.Valid() && k < KEYS && EmptyBefore(d, k) && n < Count(d.fields[k])
    requires TooMany(d, k, n, fits)
    ensures var one := Cut(d, k, Count(d.fields[k]) - 1);
      && Trimmed(one, fits) == Trimmed(d, fits) && TooMany(one, k, n, fits)
      && EmptyBefore(one, k) && Count(one.fields[k]) == Count(d.fields[k]) - 1
  {
    var all := Count(d.fields[k]);
    var one := Cut(d, k, all - 1);
    CutWhole(d, k);
    assert Overflows(d, k, all, fits);
    assert FirstFull(d) == k;
    forall m | n < m <= Count(one.fields[k]) ensures Overflows(one, k, m, fits) {
      CutTwice(d, k, all - 1, m);
      assert Overflows(d, k, m, fits);
    }
  }

  lemma {:induction false} CutWhole(d: Doc, k: nat)
    requires d.Valid() && k < KEYS
    ensures Cut(d, k, Count(d.fields[k])) == d
  {
    if d.fields[k].Items? {
      assert d.fields[k].items[..|d.fields[k].items|] == d.fields[k].items;
      assert d.fields[k := d.fields[k]] == d.fields;
    }
  }

  // ---------------------------------------------------------------- what is kept and what is dropped

  /** Every list of `t` is a prefix of `d`'s, and everything else is as in `d`. */
  ghost predicate KeepsPrefixes(t: Doc, d: Doc)
    requires t.Valid() && d.Valid()
  {
    && t.rest == d.rest && t.flag == d.flag
    && forall i :: 0 <= i < KEYS ==>
         if d.fields[i].Items? then t.fields[i].Items? && t.fields[i].items <= d.fields[i].items
         else t.fields[i] == d.fields[i]
  }

  /** An item is dropped from a collection only after every earlier collection has been emptied. */
  ghost predicate InOrder(t: Doc, d: Doc)
    requires t.Valid() && d.Valid()
  {
    forall i, j :: 0 <= i < j < KEYS && Count(t.fields[j]) < Count(d.fields[j]) ==> !HasItems(t.fields[i])
  }

  ghost predicate Dropped(t: Doc, d: Doc, k: nat)
    requires t.Valid() && d.Valid() && k < KEYS
  {
    Count(t.fields[k]) < Count(d.fields[k])
  }

  /** The last collection that lost an item: the only one that may have been cut rather than emptied. */
  ghost predicate Pivot(t: Doc, d: Doc, k: nat)
    requires t.Valid() && d.Valid() && k < KEYS
  {
    Dropped(t, d, k) && forall j :: k < j < KEYS ==> !Dropped(t, d, j)
  }

  /** `t` with its list under `k` one item longer. */
  function OneMore(t: Doc, d: Doc, k: nat): (r: Doc)
    requires t.Valid() && d.Valid() && k < KEYS && KeepsPrefixes(t, d) && Dropped(t, d, k)
    ensures r.Valid()
  {
    t.(fields := t.fields[k := Items(d.fields[k].items[..Count(t.fields[k]) + 1])])
  }

  lemma {:induction false} TrimmedKeepsPrefixes(d: Doc, fits: Doc -> bool)
    requires d.Valid()
    ensures KeepsPrefixes(Trimmed(d, fits), d)
    decreases CountAll(d)
  {
    if !(fits(d) || EmptyBefore(d, KEYS)) {
      var k := FirstFull(d);
      var n := |d.fields[k].items| - 1;
      CutCounts(d, k, n);
      TrimmedKeepsPrefixes(Cut(d, k, n), fits);
      CutKeepsPrefixes(d, k, n);
      PrefixesCompose(Trimmed(d, fits), Cut(d, k, n), d);
    }
  }

  lemma {:induction false} CutKeepsPrefixes(d: Doc, k: nat, n: nat)
    requires d.Valid() && k < KEYS && n <= Count(d.fields[k])
    ensures KeepsPrefixes(Cut(d, k, n), d)
  {
  }

  lemma {:induction false} PrefixesCompose(t: Doc, mid: Doc, d: Doc)
    requires t.Valid() && mid.Valid() && d.Valid()
    requires KeepsPrefixes(t, mid) && KeepsPrefixes(mid, d)
    ensures KeepsPrefixes(t, d)
  {
  }

  lemma {:induction false} TrimmedInOrder(d: Doc, fits: Doc -> bool)
    requires d.Valid()
    ensures InOrder(Trimmed(d, fits), d)
    decreases CountAll(d)
  {
    if !(fits(d) || EmptyBefore(d, KEYS)) {
      var k := FirstFull(d);
      var n := |d.fields[k].items| - 1;
      CutCounts(d, k, n);
      var one := Cut(d, k, n);
      var t := Trimmed(one, fits);
      TrimmedInOrder(one, fits);
      TrimmedKeepsPrefixes(one, fits);
      OneLessInOrder(t, d, k, n);
    }
  }

  lemma {:induction false} OneLessInOrder(t: Doc, d: Doc, k: nat, n: nat)
    requires t.Valid() && d.Valid() && k < KEYS && n <= Count(d.fields[k]) && EmptyBefore(d, k)
    requires InOrder(t, Cut(d, k, n)) && KeepsPrefixes(t, Cut(d, k, n))
    ensures InOrder(t, d)
  {
    var one := Cut(d, k, n);
    forall i, j | 0 <= i < j < KEYS && Count(t.fields[j]) < Count(d.fields[j]) ensures !HasItems(t.fields[i]) {
      if Count(t.fields[j]) >= Count(one.fields[j]) {
        assert j == k;
        assert !HasItems(d.fields[i]);
        assert one.fields[i] == d.fields[i];
      }
    }
  }

  /** One more item under the pivot would not have fit: the prefix kept there is the longest. */
  lemma {:induction false} PivotIsLongest(d: Doc, fits: Doc -> bool, p: nat)
    requires d.Valid() && p < KEYS && Pivot(Trimmed(d, fits), d, p)
    ensures KeepsPrefixes(Trimmed(d, fits), d)
    ensures !fits(OneMore(Trimmed(d, fits), d, p))
    decreases CountAll(d)
  {
    TrimmedKeepsPrefixes(d, fits);
    var k := FirstFull(d);
    var n := |d.fields[k].items| - 1;
    CutCounts(d, k, n);
    var one := Cut(d, k, n);
    var t := Trimmed(one, fits);
    TrimmedKeepsPrefixes(one, fits);
    if Dropped(t, one, p) {
      forall j | p < j < KEYS ensures !Dropped(t, one, j) {
        assert !Dropped(t, d, j);
      }
      PivotIsLongest(one, fits, p);
      assert p <= k ==> p == k;
      OneMoreFromCut(t, d, k, n, p);
    } else {
      LastDropped(t, d, one, k, p);
    }
  }

  lemma {:induction false} OneMoreFromCut(t: Doc, d: Doc, k: nat, n: nat, p: nat)
    requires t.Valid() && d.Valid() && k < KEYS && HasItems(d.fields[k]) && n == |d.fields[k].items| - 1 && p < KEYS
    requires KeepsPrefixes(t, d) && KeepsPrefixes(t, Cut(d, k, n))
    requires Dropped(t, d, p) && Dropped(t, Cut(d, k, n), p)
    ensures OneMore(t, d, p) == OneMore(t, Cut(d, k, n), p)
  {
    var m := Count(t.fields[p]) + 1;
    if p == k {
      assert d.fields[k].items[..n][..m] == d.fields[k].items[..m];
    }
  }

  lemma {:induction false} LastDropped(t: Doc, d: Doc, one: Doc, k: nat, p: nat)
    requires t.Valid() && d.Valid() && p < KEYS && !EmptyBefore(d, KEYS) && k == FirstFull(d)
    requires one == Cut(d, k, |d.fields[k].items| - 1)
    requires KeepsPrefixes(t, d) && KeepsPrefixes(t, one)
    requires Pivot(t, d, p) && !Dropped(t, one, p)
    ensures OneMore(t, d, p) == d
  {
    assert p == k;
    var more := OneMore(t, d, p);
    forall i | 0 <= i < KEYS ensures more.fields[i] == d.fields[i] {
      if i == k {
        assert d.fields[k].items[..|d.fields[k].items|] == d.fields[k].items;
      } else if i > k {
        assert !Dropped(t, d, i);
      } else {
        assert !HasItems(d.fields[i]);
      }
    }
    assert more.fields == d.fields;
  }

  /** `d` with every trimmable list emptied. */
  function Emptied(d: Doc): (r: Doc)
    requires d.Valid()
    ensures r.Valid()
  {
    d.(fields := [NoItems(d.fields[0]), NoItems(d.fields[1]), NoItems(d.fields[2]), NoItems(d.fields[3]), NoItems(d.fields[4])])
  }

  function NoItems(f: Field): Field {
    if f.Items? then Items([]) else f
  }

  lemma {:induction false} EmptiedIsSmaller(d: Doc)
    requires d.Valid()
    ensures Size(Emptied(d)) <= Size(d)
  {
    forall i | 0 <= i < KEYS ensures FieldCost(i, NoItems(d.fields[i])) <= FieldCost(i, d.fields[i]) {
      if HasItems(d.fields[i]) {
        ShorterIsSmaller(d.fields[i].items, 0);
        assert d.fields[i].items[..0] == [];
      }
    }
  }

  /** Trimming gets a document inside the cap exactly when the document without any item fits. */
  lemma {:induction false} TrimmedFitsIff(d: Doc, cap: nat)
    requires d.Valid()
    ensures Fits(Trimmed(d, FitsIn(cap)), cap) <==> Fits(Emptied(d), cap)
    decreases CountAll(d)
  {
    EmptiedIsSmaller(d);
    if !Fits(d, cap) {
      if EmptyBefore(d, KEYS) {
        assert Emptied(d).fields == d.fields;
      } else {
        var k := FirstFull(d);
        CutCounts(d, k, |d.fields[k].items| - 1);
        var one := Cut(d, k, |d.fields[k].items| - 1);
        assert Emptied(one).fields == Emptied(d).fields;
        TrimmedFitsIff(one, cap);
      }
    }
  }

  // ---------------------------------------------------------------- the response

  /** How long the two notes come out, as a function of what was dropped; a JSON string adds its quotes. */
  datatype Texts = Texts(dropBytes: seq<nat> -> nat, oversizedBytes: seq<bool> -> nat)

  datatype Packed = Packed(doc: Doc, byteSize: nat, cap: nat, truncated: bool, dropped: seq<nat>, warnings: seq<Item>)

  datatype PackError = BoundInvalid | BudgetExceeded | NotAList

  function Lost(t: Doc, d: Doc): (r: seq<nat>)
    requires t.Valid() && d.Valid()
  {
    seq(KEYS, i requires 0 <= i < KEYS =>
      if Count(t.fields[i]) < Count(d.fields[i]) then Count(d.fields[i]) - Count(t.fields[i]) else 0)
  }

  /** A collection of one item lost it: the caller could never have had it. */
  function Oversized(t: Doc, d: Doc): (r: seq<bool>)
    requires t.Valid() && d.Valid()
  {
    seq(KEYS, i requires 0 <= i < KEYS => Count(d.fields[i]) == 1 && Count(t.fields[i]) == 0)
  }

  function Notes(texts: Texts, lost: seq<nat>, oversized: seq<bool>): (r: seq<Item>)
    ensures forall item :: item in r ==> item.bytes >= 1
  {
    (if AnyLost(lost) then [Item("max_bytes", texts.dropBytes(lost) + 2)] else [])
    + (if true in oversized then [Item("oversized_item", texts.oversizedBytes(oversized) + 2)] else [])
  }

  /** What `list(value or [])` makes of the warnings already there. */
  function Existing(f: Field): Option<seq<Item>> {
    match f
    case Missing => Some([])
    case Items(items) => Some(items)
    case Other(_, listed) => listed
  }

  function Flagged(t: Doc, warnings: seq<Item>): (r: Doc)
    requires t.Valid() && forall item :: item in warnings ==> item.bytes >= 1
    ensures r.Valid()
  {
    t.(flag := Bool(true), fields := t.fields[WARNINGS := Items(warnings)])
  }

  /** The document after trimming: flagged, with the notes if they fit and without them otherwise. */
  function Finished(t: Doc, existing: seq<Item>, notes: seq<Item>, cap: nat): (r: Doc)
    requires t.Valid()
    requires forall item :: item in existing || item in notes ==> item.bytes >= 1
    ensures r.Valid()
  {
    if Fits(Flagged(t, existing + notes), cap) then Flagged(t, existing + notes) else Flagged(t, existing)
  }

  predicate Sound(d: Doc) {
    && d.Valid()
    && match d.fields[WARNINGS] case Other(_, Some(listed)) => Real(Items(listed)) case _ => true
  }

  /** What packing must come to, for a cap already checked. */
  function PackOf(d: Doc, cap: nat, texts: Texts): (r: Result<Packed, PackError>)
    requires Sound(d)
    ensures r.Success? ==> r.value.doc.Valid()
  {
    if Fits(d, cap) then Success(Packed(d, Size(d), cap, false, [0, 0, 0, 0, 0], []))
    else if !Fits(Emptied(d), cap) then Failure(BudgetExceeded)
    else
      var t := Trimmed(d, FitsIn(cap));
      TrimmedKeepsPrefixes(d, FitsIn(cap));
      match Existing(t.fields[WARNINGS])
      case None => Failure(NotAList)
      case Some(existing) =>
        var notes := Notes(texts, Lost(t, d), Oversized(t, d));
        var doc := Finished(t, existing, notes, cap);
        Success(Packed(doc, Size(doc), cap, AnyLost(Lost(t, d)), Lost(t, d), notes))
  }

  predicate AnyLost(lost: seq<nat>) {
    exists i :: 0 <= i < |lost| && lost[i] > 0
  }

  /**
    What trimming keeps: kept and dropped make up each list, and the kept part is a prefix; a list
    loses items only once every earlier one is empty; and the last list to lose any kept the longest
    prefix that fits.
  */
  lemma {:induction false} TrimmedKeepsTheMost(d: Doc, cap: nat)
    requires d.Valid()
    ensures var t := Trimmed(d, FitsIn(cap));
      && KeepsPrefixes(t, d) && InOrder(t, d)
      && (forall i :: 0 <= i < KEYS ==> Lost(t, d)[i] + Count(t.fields[i]) == Count(d.fields[i]))
      && forall k :: 0 <= k < KEYS && Pivot(t, d, k) ==> !Fits(OneMore(t, d, k), cap)
  {
    var t := Trimmed(d, FitsIn(cap));
    TrimmedKeepsPrefixes(d, FitsIn(cap));
    TrimmedInOrder(d, FitsIn(cap));
    LostAndKept(t, d);
    forall k | 0 <= k < KEYS && Pivot(t, d, k) ensures !Fits(OneMore(t, d, k), cap) {
      PivotIsLongest(d, FitsIn(cap), k);
    }
  }

  lemma {:induction false} LostAndKept(t: Doc, d: Doc)
    requires t.Valid() && d.Valid() && KeepsPrefixes(t, d)
    ensures forall i :: 0 <= i < KEYS ==> Lost(t, d)[i] + Count(t.fields[i]) == Count(d.fields[i])
  {
  }

  /**
    A packed response is the trimmed document, and is flagged exactly when something was dropped;
    then only the flag and notes after the kept warnings differ.
  */
  lemma {:induction false} PackedIsTrimmed(d: Doc, cap: nat, texts: Texts)
    requires Sound(d) && PackOf(d, cap, texts).Success?
    ensures var p := PackOf(d, cap, texts).value;
      var t := Trimmed(d, FitsIn(cap));
      && Fits(t, cap) && p.dropped == Lost(t, d) && p.truncated == AnyLost(p.dropped) == !Fits(d, cap)
      && (!p.truncated ==> p.doc == d)
      && (p.truncated ==>
            && p.doc.flag == Bool(true) && p.doc.rest == d.rest
            && (forall i :: 0 <= i < WARNINGS ==> p.doc.fields[i] == t.fields[i])
            && Existing(t.fields[WARNINGS]).Some? && p.doc.fields[WARNINGS].Items?
            && Existing(t.fields[WARNINGS]).value <= p.doc.fields[WARNINGS].items)
  {
    var t := Trimmed(d, FitsIn(cap));
    TrimmedKeepsPrefixes(d, FitsIn(cap));
    TrimmedFitsIff(d, cap);
    if Fits(d, cap) {
      LosesNothing(d);
    } else {
      if !AnyLost(Lost(t, d)) { NothingLost(t, d); }
      FinishedKeeps(t, Existing(t.fields[WARNINGS]).value, Notes(texts, Lost(t, d), Oversized(t, d)), cap);
    }
  }

  lemma {:induction false} LosesNothing(d: Doc)
    requires d.Valid()
    ensures Lost(d, d) == [0, 0, 0, 0, 0] && !AnyLost(Lost(d, d))
  {
  }

  lemma {:induction false} FinishedKeeps(t: Doc, existing: seq<Item>, notes: seq<Item>, cap: nat)
    requires t.Valid()
    requires forall item :: item in existing || item in notes ==> item.bytes >= 1
    ensures var doc := Finished(t, existing, notes, cap);
      && doc.flag == Bool(true) && doc.rest == t.rest
      && (forall i :: 0 <= i < WARNINGS ==> doc.fields[i] == t.fields[i])
      && doc.fields[WARNINGS].Items? && existing <= doc.fields[WARNINGS].items
  {
  }

  lemma {:induction false} NothingLost(t: Doc, d: Doc)
    requires t.Valid() && d.Valid() && KeepsPrefixes(t, d) && !AnyLost(Lost(t, d))
    ensures t == d
  {
    forall i | 0 <= i < KEYS ensures t.fields[i] == d.fields[i] {
      assert Lost(t, d)[i] == 0;
    }
    assert t.fields == d.fields;
  }

  // ---------------------------------------------------------------- the cap

  /** How many bytes flagging adds to a document that carries `flag` and `warnings`. */
  function Growth(flag: Flag, warnings: Field): (r: int)
    ensures flag.Bool? && warnings.Items? ==> r <= 0
  {
    FlagCost(Bool(true)) - FlagCost(flag)
    + if Existing(warnings).None? then 0
      else FieldCost(WARNINGS, Items(Existing(warnings).value)) - FieldCost(WARNINGS, warnings)
  }

  lemma {:induction false} FlaggedSize(t: Doc)
    requires Sound(t) && Existing(t.fields[WARNINGS]).Some? && Members(t) > 0
    ensures Size(Flagged(t, Existing(t.fields[WARNINGS]).value)) == Size(t) + Growth(t.flag, t.fields[WARNINGS])
  {
  }

  lemma {:induction false} NothingMissing(d: Doc, cap: nat)
    requires d.Valid() && !Fits(d, cap) && cap >= 2
    ensures Members(d) > 0 && Members(Trimmed(d, FitsIn(cap))) > 0
  {
    TrimmedKeepsPrefixes(d, FitsIn(cap));
    forall i | 0 <= i < KEYS && FieldCost(i, d.fields[i]) > 0 ensures FieldCost(i, Trimmed(d, FitsIn(cap)).fields[i]) > 0 {
    }
  }

  /**
    A packed response obeys the cap whenever flagging it cannot make it longer: so always when the
    document already carries a boolean `truncated` and a list of `warnings`, as every envelope does.
  */
  lemma {:induction false} PackedObeysCap(d: Doc, cap: nat, texts: Texts)
    requires Sound(d) && cap >= MIN_BYTES && PackOf(d, cap, texts).Success?
    requires Growth(d.flag, d.fields[WARNINGS]) <= 0
    ensures var p := PackOf(d, cap, texts).value; p.byteSize == Size(p.doc) <= cap
  {
    if !Fits(d, cap) {
      var t := Trimmed(d, FitsIn(cap));
      TrimmedKeepsPrefixes(d, FitsIn(cap));
      TrimmedFitsIff(d, cap);
      NothingMissing(d, cap);
      FlaggedSize(t);
    }
  }

  /** And the other way round: any shape that flagging lengthens has a document that ends over the cap. */
  lemma {:induction false} GrowthOverflows(flag: Flag, warnings: Field, cap: nat, texts: Texts) returns (d: Doc)
    requires Real(warnings) && Existing(warnings).Some? && Real(Items(Existing(warnings).value))
    requires Growth(flag, warnings) > 0
    requires cap >= 14 + FlagCost(flag) + FieldCost(WARNINGS, warnings)
    ensures Sound(d) && d.flag == flag && d.fields[WARNINGS] == warnings
    ensures PackOf(d, cap, texts).Success? && PackOf(d, cap, texts).value.byteSize > cap
  {
    var room := cap - 14 - FlagCost(flag) - FieldCost(WARNINGS, warnings);
    d := Overfull(room, flag, warnings);
    var t := OverfullTrims(room, flag, warnings, cap);
    TrimmedFitsIff(d, cap);
    FlaggedSize(t);
    NotesAddBytes(t, Existing(warnings).value, Notes(texts, Lost(t, d), Oversized(t, d)));
  }

  /** Two nodes, of which the first alone fills the cap to the byte. */
  function Overfull(room: nat, flag: Flag, warnings: Field): Doc {
    Doc([room], flag, [Items([Item("a", 1), Item("b", 100)]), Missing, Missing, Missing, warnings])
  }

  lemma {:induction false} OverfullTrims(room: nat, flag: Flag, warnings: Field, cap: nat) returns (t: Doc)
    requires Real(warnings) && cap == room + 14 + FlagCost(flag) + FieldCost(WARNINGS, warnings)
    ensures Overfull(room, flag, warnings).Valid() && t.Valid()
    ensures t == Trimmed(Overfull(room, flag, warnings), FitsIn(cap)) && Size(t) == cap
    ensures !Fits(Overfull(room, flag, warnings), cap)
    ensures t.flag == flag && t.fields[WARNINGS] == warnings && Members(t) > 0
  {
    var d := Overfull(room, flag, warnings);
    var a, b := Item("a", 1), Item("b", 100);
    t := Cut(d, NODES, 1);
    assert [a, b][..1] == [a];
    assert WithCommas([a]) == WithCommas([]) + 2;
    assert WithCommas([a, b]) == WithCommas([a]) + 101;
    assert RestCost([room]) == room + 1;
    assert Size(t) == cap && FirstFull(d) == NODES;
  }

  lemma {:induction false} NotesAddBytes(t: Doc, existing: seq<Item>, notes: seq<Item>)
    requires t.Valid() && forall item :: item in existing || item in notes ==> item.bytes >= 1
    ensures Size(Flagged(t, existing)) <= Size(Flagged(t, existing + notes))
  {
    assert (existing + notes)[..|existing|] == existing;
    ShorterIsSmaller(existing + notes, |existing|);
  }


  // ---------------------------------------------------------------- packing by binary search

  /** The longest prefix under `k` that fits, with the later collections intact; none may fit. */
  method LongestPrefix(d: Doc, k: nat, cap: nat) returns (low: nat)
    requires d.Valid() && k < KEYS && HasItems(d.fields[k])
    ensures low <= Count(d.fields[k]) && TooMany(d, k, low, FitsIn(cap))
    ensures low > 0 ==> Fits(Cut(d, k, low), cap)
  {
    low := 0;
    var high := |d.fields[k].items|;
    while low < high
      invariant 0 <= low <= high <= Count(d.fields[k])
      invariant low > 0 ==> Fits(Cut(d, k, low), cap)
      invariant TooMany(d, k, high, FitsIn(cap))
    {
      var middle := (low + high + 1) / 2;
      if Fits(Cut(d, k, middle), cap) {
        low := middle;
      } else {
        forall m | middle <= m <= Count(d.fields[k]) ensures Overflows(d, k, m, FitsIn(cap)) {
          LongerCutIsBigger(d, k, middle, m);
        }
        high := middle - 1;
      }
    }
  }

  /** One turn of the pass: the list under `k` is cut to its longest prefix that fits. */
  method TrimKey(d: Doc, k: nat, cap: nat) returns (packed: Doc, low: nat)
    requires d.Valid() && k < KEYS
    requires Fits(d, cap) || EmptyBefore(d, k)
    ensures low <= Count(d.fields[k]) && packed == Cut(d, k, low)
    ensures Trimmed(packed, FitsIn(cap)) == Trimmed(d, FitsIn(cap))
    ensures Fits(packed, cap) || EmptyBefore(packed, k + 1)
  {
    CutWhole(d, k);
    low, packed := Count(d.fields[k]), d;
    if HasItems(d.fields[k]) {
      low := LongestPrefix(d, k, cap);
      KeyTrimmed(d, k, low, cap);
      packed := Cut(d, k, low);
    }
  }

  /** One pass over the trimmable keys comes to what dropping one item at a time comes to. */
  method Trim(d: Doc, cap: nat) returns (packed: Doc, lost: seq<nat>, oversized: seq<bool>)
    requires d.Valid()
    ensures packed == Trimmed(d, FitsIn(cap))
    ensures lost == Lost(packed, d) && oversized == Oversized(packed, d)
  {
    packed, lost, oversized := d, [], [];
    for k := 0 to KEYS
      invariant packed.Valid() && Trimmed(packed, FitsIn(cap)) == Trimmed(d, FitsIn(cap))
      invariant Fits(packed, cap) || EmptyBefore(packed, k)
      invariant Tallied(packed, d, lost, oversized, k)
    {
      var n := Count(packed.fields[k]);
      ghost var was := packed;
      var low;
      packed, low := TrimKey(packed, k, cap);
      TallyOne(was, d, lost, oversized, k, low);
      lost := lost + [n - low];
      oversized := oversized + [low == 0 && n == 1];
    }
    TallyDone(packed, d, lost, oversized);
  }

  /** The losses under the first `k` keys are noted, and the lists from `k` on are still whole. */
  ghost predicate Tallied(t: Doc, d: Doc, lost: seq<nat>, oversized: seq<bool>, k: nat)
    requires t.Valid() && d.Valid()
  {
    && |lost| == |oversized| == k <= KEYS
    && (forall i :: k <= i < KEYS ==> t.fields[i] == d.fields[i])
    && forall i :: 0 <= i < k ==>
         && lost[i] == Count(d.fields[i]) - Count(t.fields[i])
         && oversized[i] == (Count(d.fields[i]) == 1 && Count(t.fields[i]) == 0)
  }

  lemma {:induction false} TallyOne(t: Doc, d: Doc, lost: seq<nat>, oversized: seq<bool>, k: nat, low: nat)
    requires t.Valid() && d.Valid() && k < KEYS && Tallied(t, d, lost, oversized, k) && low <= Count(t.fields[k])
    ensures var n := Count(t.fields[k]);
      Tallied(Cut(t, k, low), d, lost + [n - low], oversized + [low == 0 && n == 1], k + 1)
  {
    var n := Count(t.fields[k]);
    var u := Cut(t, k, low);
    var l, o := lost + [n - low], oversized + [low == 0 && n == 1];
    forall i | 0 <= i < k + 1
      ensures l[i] == Count(d.fields[i]) - Count(u.fields[i])
      ensures o[i] == (Count(d.fields[i]) == 1 && Count(u.fields[i]) == 0)
    {
      if i < k { assert u.fields[i] == t.fields[i] && l[i] == lost[i] && o[i] == oversized[i]; }
    }
  }

  lemma {:induction false} TallyDone(t: Doc, d: Doc, lost: seq<nat>, oversized: seq<bool>)
    requires t.Valid() && d.Valid() && Tallied(t, d, lost, oversized, KEYS)
    ensures lost == Lost(t, d) && oversized == Oversized(t, d)
  {
  }

  lemma {:induction false} KeyTrimmed(d: Doc, k: nat, low: nat, cap: nat)
    requires d.Valid() && k < KEYS && HasItems(d.fields[k]) && low <= Count(d.fields[k])
    requires Fits(d, cap) || EmptyBefore(d, k)
    requires TooMany(d, k, low, FitsIn(cap)) && (low > 0 ==> Fits(Cut(d, k, low), cap))
    ensures Trimmed(Cut(d, k, low), FitsIn(cap)) == Trimmed(d, FitsIn(cap))
    ensures Fits(Cut(d, k, low), cap) || EmptyBefore(Cut(d, k, low), k + 1)
  {
    CutWhole(d, k);
    if Fits(d, cap) {
      assert !Overflows(d, k, Count(d.fields[k]), FitsIn(cap));
      assert low == Count(d.fields[k]);
    } else {
      CutAtOnce(d, k, low, FitsIn(cap));
    }
  }

  /** The whole packer. A cap out of bounds is refused; absent, it is the default. */
  method PackResponse(d: Doc, maxBytes: Option<int>, texts: Texts) returns (r: Result<Packed, PackError>)
    requires Sound(d)
    ensures BoundedInt(maxBytes, MIN_BYTES, MAX_BYTES, DEFAULT_MAX_BYTES).None? ==> r == Failure(BoundInvalid)
    ensures BoundedInt(maxBytes, MIN_BYTES, MAX_BYTES, DEFAULT_MAX_BYTES).Some? ==>
      r == PackOf(d, BoundedInt(maxBytes, MIN_BYTES, MAX_BYTES, DEFAULT_MAX_BYTES).value, texts)
  {
    var bound := BoundedInt(maxBytes, MIN_BYTES, MAX_BYTES, DEFAULT_MAX_BYTES);
    if bound.None? { return Failure(BoundInvalid); }
    var cap: nat := bound.value;
    if Fits(d, cap) {
      return Success(Packed(d, Size(d), cap, false, [0, 0, 0, 0, 0], []));
    }
    var t, lost, oversized := Trim(d, cap);
    TrimmedFitsIff(d, cap);
    TrimmedKeepsPrefixes(d, FitsIn(cap));
    if !Fits(t, cap) { return Failure(BudgetExceeded); }
    var notes := Notes(texts, lost, oversized);
    var existing := Existing(t.fields[WARNINGS]);
    if existing.None? { return Failure(NotAList); }
    var doc := Finished(t, existing.value, notes, cap);
    r := Success(Packed(doc, Size(doc), cap, AnyLost(lost), lost, notes));
  }
}
