/**
  Symbol search: exact hits from indexes, weaker ones from a bounded scan, against one full scan
  with `Selectors.Rank`.
*/
module SymbolIndex {
  import opened Wrappers
  import opened Ordering
  import opened GraphModel
  import opened Selectors

  /** The order of keys' hits and of the scan: project, qualified name, id. */
  predicate ScanLe(a: Node, b: Node) {
    if a.project != b.project then TextLe(a.project, b.project)
    else if a.qualifiedName != b.qualifiedName then TextLe(a.qualifiedName, b.qualifiedName)
    else IdLe(a.id, b.id)
  }

  /** A node and how it matched: the place of its match kind, 0 to 6. */
  datatype Candidate = Candidate(node: Node, kind: int)

  predicate CandidateLe(a: Candidate, b: Candidate) {
    if a.kind != b.kind then a.kind < b.kind else ScanLe(a.node, b.node)
  }

  lemma {:induction false} ScanOrder()
    ensures Preorder(ScanLe)
    ensures forall a, b :: ScanLe(a, b) && ScanLe(b, a) ==> a.id == b.id
  {
    IdOrder();
    forall a, b ensures (ScanLe(a, b) || ScanLe(b, a)) && (ScanLe(a, b) && ScanLe(b, a) ==> a.id == b.id) {
      TextLeTotal(a.project, b.project);
      TextLeTotal(a.qualifiedName, b.qualifiedName);
    }
    forall a, b, c | ScanLe(a, b) && ScanLe(b, c) ensures ScanLe(a, c) {
      ScanTransitive(a, b, c);
    }
  }

  lemma {:induction false} ScanTransitive(a: Node, b: Node, c: Node)
    requires ScanLe(a, b) && ScanLe(b, c)
    ensures ScanLe(a, c)
  {
    TextLeTotal(a.project, b.project);
    TextLeTotal(b.project, c.project);
    TextLeTotal(a.qualifiedName, b.qualifiedName);
    TextLeTotal(b.qualifiedName, c.qualifiedName);
    if a.project != b.project && b.project != c.project {
      TextLeTransitive(a.project, b.project, c.project);
    } else if a.project == b.project == c.project {
      if a.qualifiedName != b.qualifiedName && b.qualifiedName != c.qualifiedName {
        TextLeTransitive(a.qualifiedName, b.qualifiedName, c.qualifiedName);
      } else if a.qualifiedName == b.qualifiedName == c.qualifiedName {
        IdOrder();
      }
    }
  }

  lemma {:induction false} CandidateOrder()
    ensures Preorder(CandidateLe)
    ensures forall a, b :: CandidateLe(a, b) && CandidateLe(b, a) ==> a.kind == b.kind && a.node.id == b.node.id
  {
    ScanOrder();
  }

  // ---------------------------------------------------------------- the indexes

  type KeyIndex = map<string, seq<Node>>

  function KeyIs(key: Node -> string, k: string): Node -> bool {
    (n: Node) => key(n) == k
  }

  /** Every key lists exactly the nodes that have it, in scan order. */
  ghost predicate Indexes(index: KeyIndex, key: Node -> string, nodes: seq<Node>) {
    && (forall n :: n in nodes ==> key(n) in index)
    && (forall k :: k in index ==> index[k] == Sort(ScanLe, Keep(KeyIs(key, k), nodes)))
  }

  method BuildIndex(nodes: seq<Node>, key: Node -> string) returns (index: KeyIndex)
    ensures Indexes(index, key, nodes)
  {
    var raw: KeyIndex := map[];
    for i := 0 to |nodes|
      invariant Groups(raw, key, nodes[..i])
    {
      var k := key(nodes[i]);
      GroupOne(raw, key, nodes, i);
      raw := raw[k := Listed(raw, k) + [nodes[i]]];
    }
    assert nodes[..|nodes|] == nodes;
    index := map k | k in raw :: Sort(ScanLe, raw[k]);
  }

  function Listed(index: KeyIndex, k: string): seq<Node> {
    if k in index then index[k] else []
  }

  ghost predicate Groups(raw: KeyIndex, key: Node -> string, nodes: seq<Node>) {
    && (forall n :: n in nodes ==> key(n) in raw)
    && (forall k :: Listed(raw, k) == Keep(KeyIs(key, k), nodes))
  }

  lemma {:induction false} GroupOne(raw: KeyIndex, key: Node -> string, nodes: seq<Node>, i: nat)
    requires i < |nodes| && Groups(raw, key, nodes[..i])
    ensures var k := key(nodes[i]); Groups(raw[k := Listed(raw, k) + [nodes[i]]], key, nodes[..i + 1])
  {
    var k := key(nodes[i]);
    var more := raw[k := Listed(raw, k) + [nodes[i]]];
    PrefixSnoc(nodes, i);
    forall j ensures Listed(more, j) == Keep(KeyIs(key, j), nodes[..i + 1]) {
      KeepSnoc(KeyIs(key, j), nodes, i);
      assert Listed(raw, j) == Keep(KeyIs(key, j), nodes[..i]);
    }
  }

  datatype Index = Index(
    nodes: map<Id, Node>,
    byQualifiedName: KeyIndex,
    byName: KeyIndex,
    byFoldedQualifiedName: KeyIndex,
    byFoldedName: KeyIndex,
    scanOrder: seq<Node>)

  function QualifiedName(): Node -> string { (n: Node) => n.qualifiedName }
  function Name(): Node -> string { (n: Node) => n.name }
  function FoldedQualifiedName(fold: Fold): Node -> string { (n: Node) => fold(n.qualifiedName) }
  function FoldedName(fold: Fold): Node -> string { (n: Node) => fold(n.name) }

  /** The four text indexes by match kind, the key each is built on, and the text it is asked for. */
  function ByKind(index: Index, kind: nat): KeyIndex {
    match kind
    case 1 => index.byQualifiedName
    case 2 => index.byName
    case 3 => index.byFoldedQualifiedName
    case _ => index.byFoldedName
  }

  function KeyOf(fold: Fold, kind: nat): Node -> string {
    match kind
    case 1 => QualifiedName()
    case 2 => Name()
    case 3 => FoldedQualifiedName(fold)
    case _ => FoldedName(fold)
  }

  function Asked(fold: Fold, query: string, kind: nat): string {
    if kind <= 2 then query else fold(query)
  }

  ghost predicate Built(index: Index, fold: Fold, nodes: map<Id, Node>) {
    && index.nodes == nodes
    && (forall kind :: 1 <= kind <= 4 ==> Indexes(ByKind(index, kind), KeyOf(fold, kind), InOrder(nodes)))
    && index.scanOrder == Sort(ScanLe, InOrder(nodes))
  }

  method BuildSymbolIndex(nodes: map<Id, Node>, fold: Fold) returns (index: Index)
    ensures Built(index, fold, nodes)
  {
    var pinned := InOrder(nodes);
    var byQualifiedName := BuildIndex(pinned, KeyOf(fold, 1));
    var byName := BuildIndex(pinned, KeyOf(fold, 2));
    var byFoldedQualifiedName := BuildIndex(pinned, KeyOf(fold, 3));
    var byFoldedName := BuildIndex(pinned, KeyOf(fold, 4));
    index := Index(nodes, byQualifiedName, byName, byFoldedQualifiedName, byFoldedName, Sort(ScanLe, pinned));
    forall kind | 1 <= kind <= 4 ensures Indexes(ByKind(index, kind), KeyOf(fold, kind), pinned) {
      assert kind == 1 || kind == 2 || kind == 3 || kind == 4;
    }
  }

  lemma {:induction false} ListedIn(index: KeyIndex, key: Node -> string, pinned: seq<Node>, k: string, n: Node)
    requires Indexes(index, key, pinned)
    ensures n in Listed(index, k) <==> n in pinned && key(n) == k
  {
    if k in index {
      var kept := Keep(KeyIs(key, k), pinned);
      assert index[k] == Sort(ScanLe, kept);
      assert n in kept <==> n in pinned && key(n) == k;
      SameMember(kept, index[k], n);
    }
  }

  lemma {:induction false} ListedMeans(index: KeyIndex, key: Node -> string, nodes: map<Id, Node>, k: string, n: Node)
    requires Indexes(index, key, InOrder(nodes))
    ensures n in Listed(index, k) <==> PinnedNode(nodes, n) && key(n) == k
  {
    InOrderIsEverything(nodes);
    ListedIn(index, key, InOrder(nodes), k, n);
  }

  // ---------------------------------------------------------------- exact hits

  /** `n` hits the key of match kind `kind`. */
  predicate HitsKey(fold: Fold, n: Node, query: string, kind: nat) {
    if kind == 0 then n.id == Digest(query)
    else kind <= 4 && KeyOf(fold, kind)(n) == Asked(fold, query, kind)
  }

  /** The nodes listed under the key of one match kind. */
  function Hits(index: Index, fold: Fold, query: string, kind: nat): seq<Node> {
    if kind == 0 then if Digest(query) in index.nodes then [index.nodes[Digest(query)]] else []
    else if kind <= 4 then Listed(ByKind(index, kind), Asked(fold, query, kind))
    else []
  }

  ghost predicate OwnIds(nodes: map<Id, Node>) {
    forall id :: id in nodes ==> nodes[id].id == id
  }

  lemma {:induction false} HitsMeans(index: Index, fold: Fold, nodes: map<Id, Node>, query: string, kind: nat, n: Node)
    requires Built(index, fold, nodes) && OwnIds(nodes)
    ensures n in Hits(index, fold, query, kind) <==> PinnedNode(nodes, n) && HitsKey(fold, n, query, kind)
  {
    if 1 <= kind <= 4 {
      ListedMeans(ByKind(index, kind), KeyOf(fold, kind), nodes, Asked(fold, query, kind), n);
    }
  }

  /** A rank up to 4 is the first match kind whose key the node hits. */
  lemma {:induction false} RankIsFirstHit(fold: Fold, n: Node, query: string, kind: nat)
    requires kind <= 5
    ensures (0 <= Rank(fold, n, query) < kind) <==> exists k: nat :: k < kind && HitsKey(fold, n, query, k)
    ensures kind < 5 && Rank(fold, n, query) == kind ==> HitsKey(fold, n, query, kind)
    ensures kind < 5 && HitsKey(fold, n, query, kind) ==> 0 <= Rank(fold, n, query) <= kind
  {
    var r := Rank(fold, n, query);
    if 0 <= r < kind { assert HitsKey(fold, n, query, r); }
  }

  /** What `exact` has noted: a node's best match kind, and the nodes in the order they were first noted. */
  datatype Notes = Notes(best: map<Id, int>, ordered: seq<Node>)

  function Noted(notes: Notes, n: Node, kind: int): Notes {
    if n.id in notes.best && notes.best[n.id] <= kind then notes
    else Notes(notes.best[n.id := kind], if n.id in notes.best then notes.ordered else notes.ordered + [n])
  }

  function RankBy(fold: Fold, query: string): Node -> int {
    (n: Node) => Rank(fold, n, query)
  }

  /** What is noted about a node is its rank. */
  ghost predicate Truthful(best: map<Id, int>, rank: Node -> int, nodes: map<Id, Node>) {
    forall id :: id in best ==> id in nodes && best[id] == rank(nodes[id]) && best[id] >= 0
  }

  /** Each noted node is listed once. */
  ghost predicate Lists(notes: Notes, nodes: map<Id, Node>) {
    && (forall n :: n in notes.ordered ==> n.id in notes.best && n.id in nodes && nodes[n.id] == n)
    && (forall id :: id in notes.best ==> id in nodes && nodes[id] in notes.ordered)
    && Distinct(notes.ordered)
  }

  /** Every node of a rank before `kind` is noted. */
  ghost predicate Complete(best: map<Id, int>, rank: Node -> int, nodes: map<Id, Node>, kind: int) {
    forall id :: id in nodes && 0 <= rank(nodes[id]) < kind ==> id in best
  }

  ghost predicate Below(best: map<Id, int>, kind: int) {
    forall id :: id in best ==> best[id] < kind
  }

  ghost predicate NotesFor(notes: Notes, rank: Node -> int, nodes: map<Id, Node>, kind: int, limit: int) {
    && Truthful(notes.best, rank, nodes) && Lists(notes, nodes)
    && Complete(notes.best, rank, nodes, kind) && Below(notes.best, limit)
  }

  lemma {:induction false} NoteOne(notes: Notes, rank: Node -> int, nodes: map<Id, Node>, kind: int, n: Node)
    requires NotesFor(notes, rank, nodes, kind, kind + 1)
    requires n.id in nodes && nodes[n.id] == n && 0 <= rank(n) <= kind
    ensures var more := Noted(notes, n, kind);
      NotesFor(more, rank, nodes, kind, kind + 1) && n.id in more.best && notes.best.Keys <= more.best.Keys
  {
    if n.id !in notes.best {
      assert rank(n) == kind;
      assert n !in notes.ordered;
    }
  }

  lemma {:induction false} HitRanks(index: Index, fold: Fold, query: string, kind: nat, n: Node)
    requires Built(index, fold, index.nodes) && OwnIds(index.nodes) && kind <= 4
    requires n in Hits(index, fold, query, kind)
    ensures n.id in index.nodes && index.nodes[n.id] == n && 0 <= RankBy(fold, query)(n) <= kind
  {
    HitsMeans(index, fold, index.nodes, query, kind, n);
    RankIsFirstHit(fold, n, query, kind);
  }

  lemma {:induction false} KindDone(best: map<Id, int>, index: Index, fold: Fold, query: string, kind: nat)
    requires Built(index, fold, index.nodes) && OwnIds(index.nodes) && kind <= 4
    requires Complete(best, RankBy(fold, query), index.nodes, kind)
    requires forall n :: n in Hits(index, fold, query, kind) ==> n.id in best
    ensures Complete(best, RankBy(fold, query), index.nodes, kind + 1)
  {
    var rank := RankBy(fold, query);
    forall id | id in index.nodes && 0 <= rank(index.nodes[id]) < kind + 1 ensures id in best {
      var n := index.nodes[id];
      if rank(n) == kind {
        RankIsFirstHit(fold, n, query, kind);
        HitsMeans(index, fold, index.nodes, query, kind, n);
        assert PinnedNode(index.nodes, n);
      }
    }
  }

  ghost predicate AllNoted(hits: seq<Node>, best: map<Id, int>) {
    forall n :: n in hits ==> n.id in best
  }

  ghost predicate RankedBy(hits: seq<Node>, rank: Node -> int, nodes: map<Id, Node>, kind: int) {
    forall n :: n in hits ==> n.id in nodes && nodes[n.id] == n && 0 <= rank(n) <= kind
  }

  /** One match kind's hits, noted in turn. */
  method NoteList(hits: seq<Node>, ghost rank: Node -> int, ghost nodes: map<Id, Node>, kind: nat, was: Notes) returns (notes: Notes)
    requires NotesFor(was, rank, nodes, kind, kind) && RankedBy(hits, rank, nodes, kind)
    ensures NotesFor(notes, rank, nodes, kind, kind + 1) && AllNoted(hits, notes.best)
  {
    notes := was;
    for i := 0 to |hits|
      invariant NotesFor(notes, rank, nodes, kind, kind + 1) && AllNoted(hits[..i], notes.best)
    {
      assert hits[i] in hits;
      NoteOne(notes, rank, nodes, kind, hits[i]);
      PrefixSnoc(hits, i);
      notes := Noted(notes, hits[i], kind);
    }
    assert hits[..|hits|] == hits;
  }

  method NoteKind(index: Index, fold: Fold, query: string, kind: nat, was: Notes) returns (notes: Notes)
    requires Built(index, fold, index.nodes) && OwnIds(index.nodes) && kind <= 4
    requires NotesFor(was, RankBy(fold, query), index.nodes, kind, kind)
    ensures NotesFor(notes, RankBy(fold, query), index.nodes, kind + 1, kind + 1)
  {
    var hits := Hits(index, fold, query, kind);
    ghost var rank := RankBy(fold, query);
    forall n | n in hits ensures n.id in index.nodes && index.nodes[n.id] == n && 0 <= rank(n) <= kind {
      HitRanks(index, fold, query, kind, n);
    }
    notes := NoteList(hits, rank, index.nodes, kind, was);
    KindDone(notes.best, index, fold, query, kind);
  }

  /** Every exact hit, once, at its best rank: exactly the nodes a full scan ranks 0 to 4. */
  method Exact(index: Index, fold: Fold, query: string) returns (notes: Notes)
    requires Built(index, fold, index.nodes) && OwnIds(index.nodes)
    ensures Lists(notes, index.nodes)
    ensures forall id :: id in notes.best <==> id in index.nodes && 0 <= Rank(fold, index.nodes[id], query) <= 4
    ensures forall id :: id in notes.best ==> notes.best[id] == Rank(fold, index.nodes[id], query)
  {
    notes := Notes(map[], []);
    ghost var rank := RankBy(fold, query);
    for kind := 0 to 5
      invariant NotesFor(notes, rank, index.nodes, kind, kind)
    {
      notes := NoteKind(index, fold, query, kind, notes);
    }
    ExactlyTheseRanks(notes, fold, query, index.nodes);
  }

  lemma {:induction false} ExactlyTheseRanks(notes: Notes, fold: Fold, query: string, nodes: map<Id, Node>)
    requires NotesFor(notes, RankBy(fold, query), nodes, 5, 5)
    ensures forall id :: id in notes.best <==> id in nodes && 0 <= Rank(fold, nodes[id], query) <= 4
    ensures forall id :: id in notes.best ==> notes.best[id] == Rank(fold, nodes[id], query)
  {
    var rank := RankBy(fold, query);
    forall id | id in nodes ensures rank(nodes[id]) == Rank(fold, nodes[id], query) {
    }
  }

  // ---------------------------------------------------------------- the search

  datatype SearchError = EmptyQuery | BoundInvalid

  datatype SearchResult = SearchResult(candidates: seq<Candidate>, scanned: nat, limit: nat, maxNodes: nat, truncated: bool)

  /** What the scan makes of a node: a prefix, a part, or nothing. */
  function WeakerMatch(fold: Fold, n: Node, folded: string): int {
    if folded <= fold(n.qualifiedName) || folded <= fold(n.name) then 5
    else if HasPart(fold(n.qualifiedName), folded) || HasPart(fold(n.name), folded) then 6
    else -1
  }

  lemma {:induction false} WeakerIsRank(fold: Fold, n: Node, query: string)
    requires !(0 <= Rank(fold, n, query) <= 4)
    ensures WeakerMatch(fold, n, fold(query)) == Rank(fold, n, query)
  {
  }

  function Take<T>(s: seq<T>, n: nat): seq<T> {
    if n < |s| then s[..n] else s
  }

  function IsExact(rank: Node -> int): Node -> bool {
    (n: Node) => 0 <= rank(n) <= 4
  }

  function IsHit(rank: Node -> int): Node -> bool {
    (n: Node) => rank(n) >= 0
  }

  /** An exact hit, or a weaker one among the nodes scanned. */
  function IsAnswer(rank: Node -> int, scanned: seq<Node>): Node -> bool {
    (n: Node) => 0 <= rank(n) <= 4 || (rank(n) > 4 && n in scanned)
  }

  function AsCandidates(rank: Node -> int, s: seq<Node>): (r: seq<Candidate>)
    ensures |r| == |s|
  {
    seq(|s|, i requires 0 <= i < |s| => Candidate(s[i], rank(s[i])))
  }

  /** The nodes of `pinned` chosen by `p`, best rank first. */
  function BestFirst(rank: Node -> int, p: Node -> bool, pinned: seq<Node>): seq<Candidate> {
    Sort(CandidateLe, AsCandidates(rank, Keep(p, pinned)))
  }

  function ExactHits(rank: Node -> int, pinned: seq<Node>): nat {
    |Keep(IsExact(rank), pinned)|
  }

  /** The nodes the bounded scan looks at: none once exact hits fill the limit. */
  function Scanned(rank: Node -> int, pinned: seq<Node>, allowance: nat, ceiling: nat): seq<Node> {
    if ExactHits(rank, pinned) < allowance then Take(Sort(ScanLe, pinned), ceiling) else []
  }

  /** Everything the search gathers before it cuts to the limit. */
  function Answers(rank: Node -> int, pinned: seq<Node>, allowance: nat, ceiling: nat): seq<Candidate> {
    BestFirst(rank, IsAnswer(rank, Scanned(rank, pinned, allowance, ceiling)), pinned)
  }

  function SearchOf(rank: Node -> int, pinned: seq<Node>, allowance: nat, ceiling: nat): SearchResult {
    var all := Answers(rank, pinned, allowance, ceiling);
    SearchResult(Take(all, allowance), |Scanned(rank, pinned, allowance, ceiling)|, allowance, ceiling, |all| > allowance)
  }

  // ---------------------------------------------------------------- gathering finds the answers

  ghost predicate OneNodePerId(pinned: seq<Node>) {
    forall i, j :: 0 <= i < j < |pinned| ==> pinned[i].id != pinned[j].id
  }

  lemma {:induction false} InOrderOnePerId(nodes: map<Id, Node>)
    requires OwnIds(nodes)
    ensures OneNodePerId(InOrder(nodes)) && Distinct(InOrder(nodes))
  {
  }

  lemma {:induction false} KeepDistinct(p: Node -> bool, s: seq<Node>)
    requires Distinct(s)
    ensures Distinct(Keep(p, s))
  {
    if s != [] { KeepDistinct(p, s[1..]); }
  }

  lemma {:induction false} AsCandidatesDistinct(rank: Node -> int, s: seq<Node>)
    requires Distinct(s)
    ensures Distinct(AsCandidates(rank, s))
  {
    var c := AsCandidates(rank, s);
    forall i, j | 0 <= i < j < |c| ensures c[i] != c[j] {
      assert c[i].node == s[i] && c[j].node == s[j];
    }
  }

  lemma {:induction false} AsCandidatesIn(rank: Node -> int, s: seq<Node>, c: Candidate)
    ensures c in AsCandidates(rank, s) <==> c.node in s && c.kind == rank(c.node)
  {
    if c.node in s && c.kind == rank(c.node) {
      var i :| 0 <= i < |s| && s[i] == c.node;
      assert AsCandidates(rank, s)[i] == c;
    }
  }

  lemma {:induction false} CandidatesTieFree(rank: Node -> int, s: seq<Node>)
    requires forall a, b :: a in s && b in s && a.id == b.id ==> a == b
    ensures TieFree(CandidateLe, AsCandidates(rank, s))
  {
    CandidateOrder();
    var c := AsCandidates(rank, s);
    forall x, y | x in c && y in c && CandidateLe(x, y) && CandidateLe(y, x) ensures x == y {
      AsCandidatesIn(rank, s, x);
      AsCandidatesIn(rank, s, y);
    }
  }

  /** Any listing of the same nodes, each once, comes out in the same order. */
  lemma {:induction false} GatheredInAnyOrder(rank: Node -> int, s: seq<Node>, t: seq<Node>)
    requires Distinct(s) && Distinct(t) && forall n :: n in s <==> n in t
    requires forall a, b :: a in s && b in s && a.id == b.id ==> a == b
    ensures Sort(CandidateLe, AsCandidates(rank, s)) == Sort(CandidateLe, AsCandidates(rank, t))
  {
    AsCandidatesDistinct(rank, s);
    AsCandidatesDistinct(rank, t);
    forall c ensures c in AsCandidates(rank, s) <==> c in AsCandidates(rank, t) {
      AsCandidatesIn(rank, s, c);
      AsCandidatesIn(rank, t, c);
    }
    DistinctSame(AsCandidates(rank, s), AsCandidates(rank, t));
    CandidatesTieFree(rank, s);
    CandidateOrder();
    SortForgetsOrder(CandidateLe, AsCandidates(rank, s), AsCandidates(rank, t));
  }

  /** What is noted is exactly the answers, given the nodes scanned so far. */
  ghost predicate Gathered(notes: Notes, rank: Node -> int, nodes: map<Id, Node>, scanned: seq<Node>) {
    && Truthful(notes.best, rank, nodes) && Lists(notes, nodes)
    && forall id :: id in notes.best <==> id in nodes && IsAnswer(rank, scanned)(nodes[id])
  }

  /** `ranked.setdefault`: what is already noted stays. */
  function NotedIfNew(notes: Notes, n: Node, kind: int): Notes {
    if kind < 0 || n.id in notes.best then notes
    else Notes(notes.best[n.id := kind], notes.ordered + [n])
  }

  lemma {:induction false} ScanOne(notes: Notes, rank: Node -> int, nodes: map<Id, Node>, scanned: seq<Node>, n: Node, kind: int)
    requires OwnIds(nodes) && Gathered(notes, rank, nodes, scanned)
    requires n.id in nodes && nodes[n.id] == n
    requires !(0 <= rank(n) <= 4) ==> kind == rank(n)
    ensures Gathered(NotedIfNew(notes, n, kind), rank, nodes, scanned + [n])
  {
    var more := NotedIfNew(notes, n, kind);
    if n.id !in notes.best { assert n !in notes.ordered; }
    forall id ensures id in more.best <==> id in nodes && IsAnswer(rank, scanned + [n])(nodes[id]) {
      if id in nodes && nodes[id] == n { assert id == n.id; }
    }
  }

  lemma {:induction false} WeakerRanks(fold: Fold, n: Node, wanted: string)
    ensures var rank := RankBy(fold, wanted);
      !(0 <= rank(n) <= 4) ==> WeakerMatch(fold, n, fold(wanted)) == rank(n)
  {
    if !(0 <= Rank(fold, n, wanted) <= 4) { WeakerIsRank(fold, n, wanted); }
  }

  method Scan(index: Index, fold: Fold, wanted: string, ceiling: nat, was: Notes) returns (notes: Notes, scanned: nat)
    requires Built(index, fold, index.nodes) && OwnIds(index.nodes)
    requires Gathered(was, RankBy(fold, wanted), index.nodes, [])
    ensures Gathered(notes, RankBy(fold, wanted), index.nodes, Take(index.scanOrder, ceiling))
    ensures scanned == |Take(index.scanOrder, ceiling)|
  {
    notes, scanned := was, 0;
    var folded := fold(wanted);
    while scanned < |index.scanOrder| && scanned < ceiling
      invariant 0 <= scanned <= |index.scanOrder| && scanned <= ceiling
      invariant Gathered(notes, RankBy(fold, wanted), index.nodes, index.scanOrder[..scanned])
    {
      var n := index.scanOrder[scanned];
      ScanPinned(index, fold, n);
      WeakerRanks(fold, n, wanted);
      ScanOne(notes, RankBy(fold, wanted), index.nodes, index.scanOrder[..scanned], n, WeakerMatch(fold, n, folded));
      PrefixSnoc(index.scanOrder, scanned);
      notes := NotedIfNew(notes, n, WeakerMatch(fold, n, folded));
      scanned := scanned + 1;
    }
    assert scanned == |index.scanOrder| ==> index.scanOrder[..scanned] == index.scanOrder;
  }

  lemma {:induction false} ScanPinned(index: Index, fold: Fold, n: Node)
    requires Built(index, fold, index.nodes) && OwnIds(index.nodes) && n in index.scanOrder
    ensures n.id in index.nodes && index.nodes[n.id] == n
  {
    SameMember(InOrder(index.nodes), index.scanOrder, n);
    InOrderIsEverything(index.nodes);
  }

  /** Once gathered, sorting gives the reference answers. */
  lemma {:induction false} GatheredAreAnswers(notes: Notes, rank: Node -> int, nodes: map<Id, Node>, scanned: seq<Node>)
    requires OwnIds(nodes) && Gathered(notes, rank, nodes, scanned)
    ensures Sort(CandidateLe, AsCandidates(rank, notes.ordered)) == BestFirst(rank, IsAnswer(rank, scanned), InOrder(nodes))
    ensures |notes.ordered| == |Keep(IsAnswer(rank, scanned), InOrder(nodes))|
  {
    var p := IsAnswer(rank, scanned);
    var pinned := InOrder(nodes);
    InOrderIsEverything(nodes);
    InOrderOnePerId(nodes);
    KeepDistinct(p, pinned);
    forall n ensures n in notes.ordered <==> n in Keep(p, pinned) {
      assert n in Keep(p, pinned) <==> PinnedNode(nodes, n) && p(n);
      if PinnedNode(nodes, n) { assert nodes[n.id] == n; }
    }
    DistinctSame(notes.ordered, Keep(p, pinned));
    GatheredInAnyOrder(rank, notes.ordered, Keep(p, pinned));
  }

  /** The answer in the order it was gathered, with the kinds noted. */
  function Gather(notes: Notes): seq<Candidate>
    requires forall n :: n in notes.ordered ==> n.id in notes.best
  {
    seq(|notes.ordered|, i requires 0 <= i < |notes.ordered| => Candidate(notes.ordered[i], notes.best[notes.ordered[i].id]))
  }

  lemma {:induction false} GatherRanks(notes: Notes, rank: Node -> int, nodes: map<Id, Node>)
    requires Truthful(notes.best, rank, nodes) && Lists(notes, nodes)
    ensures Gather(notes) == AsCandidates(rank, notes.ordered)
  {
    forall i | 0 <= i < |notes.ordered| ensures Gather(notes)[i] == AsCandidates(rank, notes.ordered)[i] {
      assert notes.ordered[i] in notes.ordered;
    }
  }

  /** The search as it is made, over the nodes in scope. `strip` is `str.strip`. */
  method SearchSymbols(nodes: map<Id, Node>, fold: Fold, strip: string -> string, query: string, limit: Option<int>, maxNodes: Option<int>)
    returns (r: Result<SearchResult, SearchError>)
    requires OwnIds(nodes)
    ensures r == Failure(EmptyQuery) <==> strip(query) == ""
    ensures strip(query) != "" ==>
      var ceiling := BoundedInt(maxNodes, 1, MAX_NODES, DEFAULT_MAX_NODES);
      if ceiling.None? then r == Failure(BoundInvalid)
      else
        var allowance := BoundedInt(limit, 1, MAX_NODES, ceiling.value);
        if allowance.None? then r == Failure(BoundInvalid)
        else r == Success(SearchOf(RankBy(fold, strip(query)), InOrder(nodes), Min(allowance.value, ceiling.value), ceiling.value))
  {
    var wanted := strip(query);
    if wanted == "" { return Failure(EmptyQuery); }
    var ceiling := BoundedInt(maxNodes, 1, MAX_NODES, DEFAULT_MAX_NODES);
    if ceiling.None? { return Failure(BoundInvalid); }
    var asked := BoundedInt(limit, 1, MAX_NODES, ceiling.value);
    if asked.None? { return Failure(BoundInvalid); }
    var allowance := Min(asked.value, ceiling.value);
    var found := Searched(nodes, fold, wanted, allowance, ceiling.value);
    r := Success(found);
  }

  function Min(a: int, b: int): nat
    requires a >= 0 && b >= 0
  {
    if a < b then a else b
  }

  method Searched(nodes: map<Id, Node>, fold: Fold, wanted: string, allowance: nat, ceiling: nat) returns (r: SearchResult)
    requires OwnIds(nodes)
    ensures r == SearchOf(RankBy(fold, wanted), InOrder(nodes), allowance, ceiling)
  {
    var index := BuildSymbolIndex(nodes, fold);
    var notes := Exact(index, fold, wanted);
    ghost var rank := RankBy(fold, wanted);
    ExactAreGathered(notes, fold, wanted, nodes);
    ExactNumber(notes, rank, nodes);
    var scanned := 0;
    if |notes.ordered| < allowance {
      notes, scanned := Scan(index, fold, wanted, ceiling, notes);
    }
    GatheredAreAnswers(notes, rank, nodes, Scanned(rank, InOrder(nodes), allowance, ceiling));
    GatherRanks(notes, rank, nodes);
    var all := Sort(CandidateLe, Gather(notes));
    r := SearchResult(Take(all, allowance), scanned, allowance, ceiling, |all| > allowance);
  }

  lemma {:induction false} ExactAreGathered(notes: Notes, fold: Fold, wanted: string, nodes: map<Id, Node>)
    requires Lists(notes, nodes)
    requires forall id :: id in notes.best <==> id in nodes && 0 <= Rank(fold, nodes[id], wanted) <= 4
    requires forall id :: id in notes.best ==> notes.best[id] == Rank(fold, nodes[id], wanted)
    ensures Gathered(notes, RankBy(fold, wanted), nodes, [])
  {
    var rank := RankBy(fold, wanted);
    forall id | id in nodes ensures rank(nodes[id]) == Rank(fold, nodes[id], wanted) {
    }
  }

  lemma {:induction false} ExactNumber(notes: Notes, rank: Node -> int, nodes: map<Id, Node>)
    requires OwnIds(nodes) && Gathered(notes, rank, nodes, [])
    ensures |notes.ordered| == ExactHits(rank, InOrder(nodes))
  {
    GatheredAreAnswers(notes, rank, nodes, []);
    ExactAnswers(rank, InOrder(nodes));
  }

  lemma {:induction false} KeepSame(p: Node -> bool, q: Node -> bool, s: seq<Node>)
    requires forall n :: n in s ==> p(n) == q(n)
    ensures Keep(p, s) == Keep(q, s)
  {
    if s != [] {
      assert s == [s[0]] + s[1..];
      KeepSame(p, q, s[1..]);
    }
  }

  lemma {:induction false} ExactAnswers(rank: Node -> int, pinned: seq<Node>)
    ensures Keep(IsAnswer(rank, []), pinned) == Keep(IsExact(rank), pinned)
  {
    KeepSame(IsAnswer(rank, []), IsExact(rank), pinned);
  }

  // ---------------------------------------------------------------- the true best answers

  function IsWeaker(rank: Node -> int): Node -> bool {
    (n: Node) => rank(n) > 4
  }

  lemma {:induction false} KeepSplits(rank: Node -> int, pinned: seq<Node>)
    ensures |Keep(IsHit(rank), pinned)| == |Keep(IsExact(rank), pinned)| + |Keep(IsWeaker(rank), pinned)|
  {
    if pinned != [] { KeepSplits(rank, pinned[1..]); }
  }

  /** Two groups, every one of the first before every one of the second, sort one after the other. */
  lemma {:induction false} SortsApart(s: seq<Candidate>, t: seq<Candidate>)
    requires TieFree(CandidateLe, s + t)
    requires forall x, y :: x in s && y in t ==> CandidateLe(x, y)
    ensures Sort(CandidateLe, s + t) == Sort(CandidateLe, s) + Sort(CandidateLe, t)
  {
    CandidateOrder();
    var a, b := Sort(CandidateLe, s), Sort(CandidateLe, t);
    SortSorted(CandidateLe, s);
    SortSorted(CandidateLe, t);
    SortSorted(CandidateLe, s + t);
    forall i, j | 0 <= i < |a| && 0 <= j < |b| ensures CandidateLe(a[i], b[j]) {
      SameMember(s, a, a[i]);
      SameMember(t, b, b[j]);
    }
    assert Sorted(CandidateLe, a + b);
    forall x ensures x in a + b <==> x in s + t {
      SameMember(s, a, x);
      SameMember(t, b, x);
    }
    SortedUnique(CandidateLe, a + b, Sort(CandidateLe, s + t));
  }

  lemma {:induction false} PartsDistinct(rank: Node -> int, pinned: seq<Node>)
    requires Distinct(pinned)
    ensures Distinct(Keep(IsExact(rank), pinned) + Keep(IsWeaker(rank), pinned))
  {
    var e, w := Keep(IsExact(rank), pinned), Keep(IsWeaker(rank), pinned);
    KeepDistinct(IsExact(rank), pinned);
    KeepDistinct(IsWeaker(rank), pinned);
    forall i, j | 0 <= i < |e| && 0 <= j < |w| ensures e[i] != w[j] {
      assert e[i] in e && w[j] in w;
    }
  }

  /** In the whole ranking the exact hits come first, in the order the index alone gives them. */
  lemma {:induction false} ExactComeFirst(rank: Node -> int, pinned: seq<Node>)
    requires OneNodePerId(pinned)
    ensures BestFirst(rank, IsHit(rank), pinned)
         == BestFirst(rank, IsExact(rank), pinned) + BestFirst(rank, IsWeaker(rank), pinned)
  {
    var e, w := Keep(IsExact(rank), pinned), Keep(IsWeaker(rank), pinned);
    KeepDistinct(IsHit(rank), pinned);
    PartsDistinct(rank, pinned);
    forall n ensures n in Keep(IsHit(rank), pinned) <==> n in e + w {
    }
    GatheredInAnyOrder(rank, Keep(IsHit(rank), pinned), e + w);
    CandidatesTieFree(rank, e + w);
    GroupsApart(rank, e, w);
  }

  lemma {:induction false} GroupsApart(rank: Node -> int, e: seq<Node>, w: seq<Node>)
    requires forall n :: n in e ==> rank(n) <= 4
    requires forall n :: n in w ==> rank(n) > 4
    requires TieFree(CandidateLe, AsCandidates(rank, e + w))
    ensures Sort(CandidateLe, AsCandidates(rank, e + w))
         == Sort(CandidateLe, AsCandidates(rank, e)) + Sort(CandidateLe, AsCandidates(rank, w))
  {
    assert AsCandidates(rank, e + w) == AsCandidates(rank, e) + AsCandidates(rank, w);
    forall x, y | x in AsCandidates(rank, e) && y in AsCandidates(rank, w) ensures CandidateLe(x, y) {
      AsCandidatesIn(rank, e, x);
      AsCandidatesIn(rank, w, y);
    }
    SortsApart(AsCandidates(rank, e), AsCandidates(rank, w));
  }

  /** With the scan not cut, what is gathered is every hit. */
  lemma {:induction false} ScanSeesEverything(rank: Node -> int, pinned: seq<Node>, allowance: nat, ceiling: nat)
    requires |pinned| <= ceiling && ExactHits(rank, pinned) < allowance
    ensures Answers(rank, pinned, allowance, ceiling) == BestFirst(rank, IsHit(rank), pinned)
  {
    var scanned := Scanned(rank, pinned, allowance, ceiling);
    assert scanned == Sort(ScanLe, pinned);
    forall n | n in pinned ensures IsAnswer(rank, scanned)(n) == IsHit(rank)(n) {
      SameMember(pinned, scanned, n);
    }
    KeepSame(IsAnswer(rank, scanned), IsHit(rank), pinned);
  }

  lemma {:induction false} NoScanExactOnly(rank: Node -> int, pinned: seq<Node>, allowance: nat, ceiling: nat)
    requires ExactHits(rank, pinned) >= allowance
    ensures Answers(rank, pinned, allowance, ceiling) == BestFirst(rank, IsExact(rank), pinned)
  {
    ExactAnswers(rank, pinned);
  }

  /**
    The answer is the true best of a full ranking of every node in scope, as long as the scan was
    not cut or exact hits alone fill the limit.
  */
  lemma {:induction false} SearchIsTopRanked(rank: Node -> int, pinned: seq<Node>, allowance: nat, ceiling: nat)
    requires OneNodePerId(pinned)
    requires |pinned| <= ceiling || ExactHits(rank, pinned) >= allowance
    ensures SearchOf(rank, pinned, allowance, ceiling).candidates == Take(BestFirst(rank, IsHit(rank), pinned), allowance)
  {
    if ExactHits(rank, pinned) < allowance {
      ScanSeesEverything(rank, pinned, allowance, ceiling);
    } else {
      NoScanExactOnly(rank, pinned, allowance, ceiling);
      ExactComeFirst(rank, pinned);
    }
  }

  /** A weaker hit the scan did not come to. */
  function IsUnseen(rank: Node -> int, scanned: seq<Node>): Node -> bool {
    (n: Node) => rank(n) > 4 && n !in scanned
  }

  lemma {:induction false} SeenAndUnseen(rank: Node -> int, scanned: seq<Node>, pinned: seq<Node>)
    ensures |Keep(IsHit(rank), pinned)| == |Keep(IsAnswer(rank, scanned), pinned)| + |Keep(IsUnseen(rank, scanned), pinned)|
  {
    if pinned != [] { SeenAndUnseen(rank, scanned, pinned[1..]); }
  }

  /** The scan was cut short of some node, and only hits among those push the total past the limit. */
  ghost predicate CutHidesHits(rank: Node -> int, pinned: seq<Node>, allowance: nat, ceiling: nat) {
    var scanned := Scanned(rank, pinned, allowance, ceiling);
    var seen, unseen := |Keep(IsAnswer(rank, scanned), pinned)|, |Keep(IsUnseen(rank, scanned), pinned)|;
    ExactHits(rank, pinned) < allowance && |pinned| > ceiling && seen <= allowance < seen + unseen
  }

  /**
    `truncated` tells whether hits were left out, with two exceptions: the exact hits fill the limit
    to the last place while there are weaker ones, or the scan was cut and the hits it did not come
    to are what goes past the limit. In both the hits left out go unmentioned.
  */
  lemma {:induction false} TruncatedIsRightExactly(rank: Node -> int, pinned: seq<Node>, allowance: nat, ceiling: nat)
    ensures (SearchOf(rank, pinned, allowance, ceiling).truncated <==> |Keep(IsHit(rank), pinned)| > allowance)
       <==> !((ExactHits(rank, pinned) == allowance && Keep(IsWeaker(rank), pinned) != [])
              || CutHidesHits(rank, pinned, allowance, ceiling))
  {
    var scanned := Scanned(rank, pinned, allowance, ceiling);
    SeenAndUnseen(rank, scanned, pinned);
    KeepSplits(rank, pinned);
    if ExactHits(rank, pinned) >= allowance {
      ExactAnswers(rank, pinned);
    } else if |pinned| <= ceiling {
      NothingUnseen(rank, pinned, scanned);
    }
  }

  lemma {:induction false} NothingUnseen(rank: Node -> int, pinned: seq<Node>, scanned: seq<Node>)
    requires scanned == Sort(ScanLe, pinned)
    ensures Keep(IsUnseen(rank, scanned), pinned) == []
  {
    forall n | n in pinned ensures !IsUnseen(rank, scanned)(n) {
      SameMember(pinned, scanned, n);
    }
    KeepNone(IsUnseen(rank, scanned), pinned);
  }

  /** Whatever was cut, each candidate is a node in scope at its true rank. */
  lemma {:induction false} SearchIsSound(rank: Node -> int, pinned: seq<Node>, allowance: nat, ceiling: nat, c: Candidate)
    requires c in SearchOf(rank, pinned, allowance, ceiling).candidates
    ensures c.node in pinned && c.kind == rank(c.node) >= 0
  {
    AnswerIsHit(rank, Scanned(rank, pinned, allowance, ceiling), pinned, c);
  }

  lemma {:induction false} AnswerIsHit(rank: Node -> int, scanned: seq<Node>, pinned: seq<Node>, c: Candidate)
    requires c in BestFirst(rank, IsAnswer(rank, scanned), pinned)
    ensures c.node in pinned && c.kind == rank(c.node) >= 0
  {
    var kept := Keep(IsAnswer(rank, scanned), pinned);
    SameMember(AsCandidates(rank, kept), BestFirst(rank, IsAnswer(rank, scanned), pinned), c);
    AsCandidatesIn(rank, kept, c);
  }

  /** Never more than the limit, and `truncated` is never a false alarm. */
  lemma {:induction false} TruncatedIsNoFalseAlarm(rank: Node -> int, pinned: seq<Node>, allowance: nat, ceiling: nat)
    ensures |SearchOf(rank, pinned, allowance, ceiling).candidates| <= allowance
    ensures SearchOf(rank, pinned, allowance, ceiling).truncated ==> |Keep(IsHit(rank), pinned)| > allowance
  {
    KeepFewer(IsAnswer(rank, Scanned(rank, pinned, allowance, ceiling)), IsHit(rank), pinned);
  }

  lemma {:induction false} KeepFewer(p: Node -> bool, q: Node -> bool, s: seq<Node>)
    requires forall n :: p(n) ==> q(n)
    ensures |Keep(p, s)| <= |Keep(q, s)|
  {
    if s != [] { KeepFewer(p, q, s[1..]); }
  }

  // ---------------------------------------------------------------- every cut scan can hide hits

  /** The first `allowance` nodes in scan order hit the query "q", and so do those from `ceiling` on. */
  function Sample(i: nat, allowance: nat, ceiling: nat): Node {
    Node(Nth(i), "", if i < allowance || i >= ceiling then "qx" else "", "")
  }

  function Samples(allowance: nat, ceiling: nat, size: nat): (r: seq<Node>)
    ensures |r| == size
  {
    seq(size, i requires 0 <= i < size => Sample(i, allowance, ceiling))
  }

  lemma {:induction false} AlreadySorted(pinned: seq<Node>)
    requires Sorted(ScanLe, pinned) && OneNodePerId(pinned)
    ensures Sort(ScanLe, pinned) == pinned
  {
    ScanOrder();
    SortSorted(ScanLe, pinned);
    forall x, y | x in pinned && y in pinned && ScanLe(x, y) && ScanLe(y, x) ensures x == y {
      assert x.id == y.id;
    }
    SortedUnique(ScanLe, pinned, Sort(ScanLe, pinned));
  }

  lemma {:induction false} SamplesSorted(allowance: nat, ceiling: nat, size: nat)
    ensures Sorted(ScanLe, Samples(allowance, ceiling, size)) && OneNodePerId(Samples(allowance, ceiling, size))
  {
    var pinned := Samples(allowance, ceiling, size);
    forall i, j | 0 <= i < j < size ensures ScanLe(pinned[i], pinned[j]) && pinned[i].id != pinned[j].id {
      NthGrows(i, j);
    }
  }

  function SampleIds(size: nat): (r: seq<Id>)
    ensures |r| == size
  {
    seq(size, i requires 0 <= i < size => Nth(i))
  }

  lemma {:induction false} IdsSorted(size: nat, keys: set<Id>)
    requires forall x :: x in keys <==> x in SampleIds(size)
    ensures SortedIds(keys) == SampleIds(size)
  {
    var ids := SampleIds(size);
    forall i, j | 0 <= i < j < size ensures ids[i] != ids[j] && IdLe(ids[i], ids[j]) {
      NthGrows(i, j);
    }
    IdOrder();
    DistinctSame(ids, SortedIds(keys));
    SortedUnique(IdLe, ids, SortedIds(keys));
  }

  lemma {:induction false} SamplesInOrder(allowance: nat, ceiling: nat, size: nat) returns (nodes: map<Id, Node>)
    ensures OwnIds(nodes) && InOrder(nodes) == Samples(allowance, ceiling, size)
  {
    var ids := SampleIds(size);
    nodes := map id | id in Elements(ids) :: Sample(|id.text|, allowance, ceiling);
    SampleMap(nodes, allowance, ceiling, size);
    IdsSorted(size, nodes.Keys);
    assert InOrder(nodes) == seq(size, i requires 0 <= i < size => nodes[ids[i]]);
  }

  lemma {:induction false} SampleMap(nodes: map<Id, Node>, allowance: nat, ceiling: nat, size: nat)
    requires nodes == map id | id in Elements(SampleIds(size)) :: Sample(|id.text|, allowance, ceiling)
    ensures OwnIds(nodes) && forall x :: x in nodes.Keys <==> x in SampleIds(size)
    ensures forall i :: 0 <= i < size ==> Nth(i) in nodes && nodes[Nth(i)] == Sample(i, allowance, ceiling)
  {
    var ids := SampleIds(size);
    forall x | x in nodes ensures nodes[x].id == x {
      var i :| 0 <= i < size && ids[i] == x;
      assert |x.text| == i;
    }
    forall i | 0 <= i < size ensures Nth(i) in nodes && nodes[Nth(i)] == Sample(i, allowance, ceiling) {
      assert ids[i] == Nth(i) && |Nth(i).text| == i;
    }
  }

  lemma {:induction false} SampleRanks(fold: Fold, i: nat, allowance: nat, ceiling: nat)
    requires fold("") == "" && fold("q") == "q" && fold("qx") == "qx"
    ensures Rank(fold, Sample(i, allowance, ceiling), "q") == if i < allowance || i >= ceiling then 5 else -1
  {
    assert Nth(i) != Digest("q") by { if i == 1 { assert Nth(i).text[0] == 'a'; } }
  }

  /**
    Whatever the limit and the scan bound, and for every size beyond that bound, some scope has more
    hits than the limit and a search that does not say so: as many hits among the nodes scanned as
    the limit takes, and all the nodes behind them.
  */
  lemma {:induction false} EveryCutScanCanHideHits(fold: Fold, allowance: nat, ceiling: nat, size: nat) returns (nodes: map<Id, Node>)
    requires fold("") == "" && fold("q") == "q" && fold("qx") == "qx"
    requires 1 <= allowance <= ceiling < size
    ensures OwnIds(nodes) && |InOrder(nodes)| == size
    ensures !SearchOf(RankBy(fold, "q"), InOrder(nodes), allowance, ceiling).truncated
    ensures |Keep(IsHit(RankBy(fold, "q")), InOrder(nodes))| > allowance
  {
    nodes := SamplesInOrder(allowance, ceiling, size);
    SamplesSorted(allowance, ceiling, size);
    AlreadySorted(InOrder(nodes));
    var rank := RankBy(fold, "q");
    var pinned := InOrder(nodes);
    forall i | 0 <= i < size ensures rank(pinned[i]) == if i < allowance || i >= ceiling then 5 else -1 {
      SampleRanks(fold, i, allowance, ceiling);
    }
    SampleCounts(rank, pinned, allowance, ceiling);
  }

  lemma {:induction false} SampleCounts(rank: Node -> int, pinned: seq<Node>, allowance: nat, ceiling: nat)
    requires 1 <= allowance <= ceiling < |pinned| && OneNodePerId(pinned) && Sort(ScanLe, pinned) == pinned
    requires forall i :: 0 <= i < |pinned| ==> rank(pinned[i]) == if i < allowance || i >= ceiling then 5 else -1
    ensures !SearchOf(rank, pinned, allowance, ceiling).truncated && |Keep(IsHit(rank), pinned)| > allowance
  {
    KeepNone(IsExact(rank), pinned);
    var scanned := Scanned(rank, pinned, allowance, ceiling);
    assert scanned == pinned[..ceiling];
    AnswersCounted(rank, pinned, allowance, ceiling);
    HitsCounted(rank, pinned, allowance, ceiling);
  }

  lemma {:induction false} AnswersCounted(rank: Node -> int, pinned: seq<Node>, allowance: nat, ceiling: nat)
    requires 1 <= allowance <= ceiling < |pinned| && OneNodePerId(pinned)
    requires forall i :: 0 <= i < |pinned| ==> rank(pinned[i]) == if i < allowance || i >= ceiling then 5 else -1
    ensures |Keep(IsAnswer(rank, pinned[..ceiling]), pinned)| == allowance
  {
    var a, b, c := pinned[..allowance], pinned[allowance..ceiling], pinned[ceiling..];
    var p := IsAnswer(rank, pinned[..ceiling]);
    assert pinned == a + b + c;
    FrontAnswers(rank, pinned, allowance, ceiling, a, b);
    RestUnanswered(rank, pinned, ceiling, c);
    CountParts(p, a, b, c);
  }

  lemma {:induction false} FrontAnswers(rank: Node -> int, pinned: seq<Node>, allowance: nat, ceiling: nat, a: seq<Node>, b: seq<Node>)
    requires 1 <= allowance <= ceiling < |pinned| && a == pinned[..allowance] && b == pinned[allowance..ceiling]
    requires forall i :: 0 <= i < |pinned| ==> rank(pinned[i]) == if i < allowance || i >= ceiling then 5 else -1
    ensures forall n :: n in a ==> IsAnswer(rank, pinned[..ceiling])(n)
    ensures forall n :: n in b ==> !IsAnswer(rank, pinned[..ceiling])(n)
  {
    forall n | n in a ensures n in pinned[..ceiling] {
      var i :| 0 <= i < allowance && a[i] == n;
      assert pinned[..ceiling][i] == n;
    }
  }

  lemma {:induction false} RestUnanswered(rank: Node -> int, pinned: seq<Node>, ceiling: nat, c: seq<Node>)
    requires ceiling < |pinned| && OneNodePerId(pinned) && c == pinned[ceiling..]
    requires forall i :: ceiling <= i < |pinned| ==> rank(pinned[i]) == 5
    ensures forall n :: n in c ==> !IsAnswer(rank, pinned[..ceiling])(n)
  {
    forall n | n in c ensures n !in pinned[..ceiling] {
      var i :| 0 <= i < |c| && c[i] == n;
      forall k | 0 <= k < ceiling ensures pinned[..ceiling][k] != n {
        assert pinned[k].id != pinned[ceiling + i].id;
      }
    }
  }

  lemma {:induction false} CountParts(p: Node -> bool, a: seq<Node>, b: seq<Node>, c: seq<Node>)
    requires forall n :: n in a ==> p(n)
    requires forall n :: n in b || n in c ==> !p(n)
    ensures |Keep(p, a + b + c)| == |a|
  {
    ThreeParts(p, a, b, c);
    KeepAll(p, a);
    KeepNone(p, b);
    KeepNone(p, c);
  }

  lemma {:induction false} HitsCounted(rank: Node -> int, pinned: seq<Node>, allowance: nat, ceiling: nat)
    requires 1 <= allowance <= ceiling < |pinned|
    requires forall i :: 0 <= i < |pinned| ==> rank(pinned[i]) == if i < allowance || i >= ceiling then 5 else -1
    ensures |Keep(IsHit(rank), pinned)| == allowance + |pinned| - ceiling
  {
    var a, b, c := pinned[..allowance], pinned[allowance..ceiling], pinned[ceiling..];
    assert pinned == a + b + c;
    ThreeParts(IsHit(rank), a, b, c);
    KeepAll(IsHit(rank), a);
    KeepNone(IsHit(rank), b);
    KeepAll(IsHit(rank), c);
  }

  lemma {:induction false} ThreeParts(p: Node -> bool, a: seq<Node>, b: seq<Node>, c: seq<Node>)
    ensures Keep(p, a + b + c) == Keep(p, a) + Keep(p, b) + Keep(p, c)
  {
    KeepConcat(p, a + b, c);
    KeepConcat(p, a, b);
  }
}
