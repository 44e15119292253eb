/**
  What changed between two pinned generations: added, removed and modified facts, and the head's
  documents rebuilt from them.

  A fact is its document: field names with encoded values. A node's document carries its project, an
  edge's does not.
*/
module Changes {
  import opened Wrappers
  import opened Ordering

  type Doc = map<string, string>
  type Facts = map<Id, Doc>

  const ID := "id"
  const PROJECT := "project_id"

  datatype Modified = Modified(id: Id, before: Doc, after: Doc)

  datatype Diff = Diff(added: seq<Doc>, removed: seq<Doc>, modified: seq<Modified>)

  /** Every document carries its own id, and its project when it is a node's. */
  ghost predicate Own(facts: Facts, project: Option<string>) {
    forall id :: id in facts ==>
      && ID in facts[id] && facts[id][ID] == id.text
      && match project
         case Some(p) => PROJECT in facts[id] && facts[id][PROJECT] == p
         case None => PROJECT !in facts[id]
  }

  /** The comparable part of a fact. */
  function Comparable(doc: Doc): Doc {
    doc - {ID, PROJECT}
  }

  /** A head document put together again from its comparable part. */
  function Rebuilt(project: Option<string>, id: Id, after: Doc): Doc {
    (match project case Some(p) => map[ID := id.text, PROJECT := p] case None => map[ID := id.text]) + after
  }

  function Docs(facts: Facts, ids: seq<Id>): (r: seq<Doc>)
    requires forall id :: id in ids ==> id in facts
    ensures |r| == |ids|
  {
    seq(|ids|, i requires 0 <= i < |ids| => facts[ids[i]])
  }

  function Pairs(head: Facts, baseline: Facts, ids: seq<Id>): (r: seq<Modified>)
    requires forall id :: id in ids ==> id in head && id in baseline
    ensures |r| == |ids|
  {
    seq(|ids|, i requires 0 <= i < |ids| =>
      Modified(ids[i], Comparable(baseline[ids[i]]), Comparable(head[ids[i]])))
  }

  predicate Differs(head: Facts, baseline: Facts, id: Id) {
    id in head && id in baseline && Comparable(head[id]) != Comparable(baseline[id])
  }

  function Changed(head: Facts, baseline: Facts): Id -> bool {
    (id: Id) => Differs(head, baseline, id)
  }

  function AddedIds(head: Facts, baseline: Facts): seq<Id> {
    SortedIds(head.Keys - baseline.Keys)
  }

  function ModifiedIds(head: Facts, baseline: Facts): seq<Id> {
    Keep(Changed(head, baseline), SortedIds(head.Keys * baseline.Keys))
  }

  function DiffOf(head: Facts, baseline: Facts): Diff {
    Diff(Docs(head, AddedIds(head, baseline)),
         Docs(baseline, AddedIds(baseline, head)),
         Pairs(head, baseline, ModifiedIds(head, baseline)))
  }

  /** The ids both sides have, of the first `i`, whose facts differ. */
  lemma {:induction false} ChangedSoFar(head: Facts, baseline: Facts, both: seq<Id>, i: nat)
    requires i < |both| && forall id :: id in both ==> id in head && id in baseline
    ensures var c := Changed(head, baseline);
      && (forall id :: id in Keep(c, both[..i]) || id in Keep(c, both[..i + 1]) ==> id in head && id in baseline)
      && Pairs(head, baseline, Keep(c, both[..i + 1])) == Pairs(head, baseline, Keep(c, both[..i]))
           + if c(both[i]) then [Modified(both[i], Comparable(baseline[both[i]]), Comparable(head[both[i]]))] else []
  {
    KeepSnoc(Changed(head, baseline), both, i);
  }

  /** The diff as it is made. */
  method DiffKind(head: Facts, baseline: Facts) returns (d: Diff)
    ensures d == DiffOf(head, baseline)
  {
    var both := SortedIds(head.Keys * baseline.Keys);
    var modified := ModifiedPairs(head, baseline, both);
    d := Diff(Docs(head, AddedIds(head, baseline)), Docs(baseline, AddedIds(baseline, head)), modified);
  }

  method ModifiedPairs(head: Facts, baseline: Facts, both: seq<Id>) returns (modified: seq<Modified>)
    requires forall id :: id in both ==> id in head && id in baseline
    ensures modified == Pairs(head, baseline, Keep(Changed(head, baseline), both))
  {
    modified := [];
    ghost var c := Changed(head, baseline);
    for i := 0 to |both|
      invariant forall id :: id in Keep(c, both[..i]) ==> id in head && id in baseline
      invariant modified == Pairs(head, baseline, Keep(c, both[..i]))
    {
      ChangedSoFar(head, baseline, both, i);
      var before, after := Comparable(baseline[both[i]]), Comparable(head[both[i]]);
      if before != after {
        modified := modified + [Modified(both[i], before, after)];
      }
    }
    assert both[..|both|] == both;
  }

  // ---------------------------------------------------------------- documents come back whole

  lemma {:induction false} RebuiltIsWhole(facts: Facts, project: Option<string>, id: Id)
    requires Own(facts, project) && id in facts
    ensures Rebuilt(project, id, Comparable(facts[id])) == facts[id]
  {
    var doc := facts[id];
    var r := Rebuilt(project, id, Comparable(doc));
    assert r.Keys == doc.Keys;
    forall key | key in doc ensures r[key] == doc[key] {
    }
  }

  /** The comparable parts differ exactly when the documents do. */
  lemma {:induction false} DiffersIsReal(head: Facts, baseline: Facts, project: Option<string>, id: Id)
    requires Own(head, project) && Own(baseline, project) && id in head && id in baseline
    ensures Differs(head, baseline, id) <==> head[id] != baseline[id]
  {
    RebuiltIsWhole(head, project, id);
    RebuiltIsWhole(baseline, project, id);
  }

  // ---------------------------------------------------------------- patching

  function IdOf(doc: Doc): Id {
    Digest(if ID in doc then doc[ID] else "")
  }

  function ById(docs: seq<Doc>): Facts {
    if docs == [] then map[]
    else ById(docs[..|docs| - 1])[IdOf(docs[|docs| - 1]) := docs[|docs| - 1]]
  }

  function Afters(modified: seq<Modified>, project: Option<string>): seq<Doc> {
    seq(|modified|, i requires 0 <= i < |modified| => Rebuilt(project, modified[i].id, modified[i].after))
  }

  /** The baseline without what was removed, with what was added and what was modified put in. */
  function Patched(baseline: Facts, d: Diff, project: Option<string>): Facts {
    (baseline - ById(d.removed).Keys) + ById(d.added) + ById(Afters(d.modified, project))
  }

  function Only(facts: Facts, ids: set<Id>): Facts {
    map id | id in ids && id in facts :: facts[id]
  }

  lemma {:induction false} OnlyGrows(facts: Facts, ids: seq<Id>, n: nat)
    requires n < |ids| && ids[n] in facts
    ensures Only(facts, Elements(ids[..n + 1])) == Only(facts, Elements(ids[..n]))[ids[n] := facts[ids[n]]]
  {
    PrefixSnoc(ids, n);
  }

  lemma {:induction false} ByIdIsRestriction(facts: Facts, project: Option<string>, ids: seq<Id>, n: nat)
    requires Own(facts, project) && n <= |ids| && forall id :: id in ids ==> id in facts
    ensures ById(Docs(facts, ids)[..n]) == Only(facts, Elements(ids[..n]))
  {
    if n > 0 {
      var docs := Docs(facts, ids);
      ByIdIsRestriction(facts, project, ids, n - 1);
      OnlyGrows(facts, ids, n - 1);
      assert docs[..n][..n - 1] == docs[..n - 1];
      assert docs[..n][n - 1] == facts[ids[n - 1]];
      assert IdOf(facts[ids[n - 1]]) == ids[n - 1];
    }
  }

  lemma {:induction false} ByIdOfDocs(facts: Facts, project: Option<string>, ids: seq<Id>)
    requires Own(facts, project) && forall id :: id in ids ==> id in facts
    ensures ById(Docs(facts, ids)) == Only(facts, Elements(ids))
  {
    ByIdIsRestriction(facts, project, ids, |ids|);
    assert Docs(facts, ids)[..|ids|] == Docs(facts, ids) && ids[..|ids|] == ids;
  }

  lemma {:induction false} AftersAreHead(head: Facts, baseline: Facts, project: Option<string>, ids: seq<Id>)
    requires Own(head, project) && forall id :: id in ids ==> id in head && id in baseline
    ensures Afters(Pairs(head, baseline, ids), project) == Docs(head, ids)
  {
    forall i | 0 <= i < |ids| ensures Afters(Pairs(head, baseline, ids), project)[i] == head[ids[i]] {
      RebuiltIsWhole(head, project, ids[i]);
    }
  }

  lemma {:induction false} PiecesMakeHead(head: Facts, baseline: Facts, modified: set<Id>)
    requires modified <= head.Keys
    requires forall id :: id in head && id in baseline && id !in modified ==> head[id] == baseline[id]
    ensures (baseline - Only(baseline, baseline.Keys - head.Keys).Keys)
          + Only(head, head.Keys - baseline.Keys) + Only(head, modified) == head
  {
  }

  lemma {:induction false} ModifiedIdsMean(head: Facts, baseline: Facts, id: Id)
    ensures id in Elements(ModifiedIds(head, baseline)) <==> Differs(head, baseline, id)
  {
    var both := SortedIds(head.Keys * baseline.Keys);
    assert id in both <==> id in head && id in baseline;
  }

  lemma {:induction false} AddedIdsMean(head: Facts, baseline: Facts)
    ensures Elements(AddedIds(head, baseline)) == head.Keys - baseline.Keys
  {
  }

  /** Diff then patch gives the head back, whatever the two generations are. */
  lemma {:induction false} PatchRestoresHead(head: Facts, baseline: Facts, project: Option<string>)
    requires Own(head, project) && Own(baseline, project)
    ensures Patched(baseline, DiffOf(head, baseline), project) == head
  {
    var modified := ModifiedIds(head, baseline);
    forall id ensures id in Elements(modified) <==> Differs(head, baseline, id) {
      ModifiedIdsMean(head, baseline, id);
    }
    forall id | id in modified ensures id in head && id in baseline {
      assert id in Elements(modified);
    }
    AddedIdsMean(head, baseline);
    AddedIdsMean(baseline, head);
    ByIdOfDocs(head, project, AddedIds(head, baseline));
    ByIdOfDocs(baseline, project, AddedIds(baseline, head));
    AftersAreHead(head, baseline, project, modified);
    ByIdOfDocs(head, project, modified);
    forall id | id in head && id in baseline && id !in Elements(modified) ensures head[id] == baseline[id] {
      DiffersIsReal(head, baseline, project, id);
    }
    PiecesMakeHead(head, baseline, Elements(modified));
  }

  function Turned(m: Modified): Modified {
    Modified(m.id, m.after, m.before)
  }

  /** Seen from the other side, added and removed trade places, and so do before and after. */
  lemma {:induction false} DiffTurnsAround(head: Facts, baseline: Facts)
    ensures var d, e := DiffOf(head, baseline), DiffOf(baseline, head);
      && e.added == d.removed && e.removed == d.added
      && |e.modified| == |d.modified|
      && forall i :: 0 <= i < |d.modified| ==> e.modified[i] == Turned(d.modified[i])
  {
    assert head.Keys * baseline.Keys == baseline.Keys * head.Keys;
    SameChanged(head, baseline, SortedIds(head.Keys * baseline.Keys));
  }

  lemma {:induction false} SameChanged(head: Facts, baseline: Facts, ids: seq<Id>)
    ensures Keep(Changed(head, baseline), ids) == Keep(Changed(baseline, head), ids)
  {
    if ids != [] { SameChanged(head, baseline, ids[1..]); }
  }

  /** An empty diff means the generations are the same, fact for fact. */
  lemma {:induction false} EmptyDiffMeansEqual(head: Facts, baseline: Facts, project: Option<string>)
    requires Own(head, project) && Own(baseline, project)
    ensures DiffOf(head, baseline) == Diff([], [], []) <==> head == baseline
  {
    if DiffOf(head, baseline) == Diff([], [], []) {
      PatchRestoresHead(head, baseline, project);
      NothingToPatch(baseline, project);
    }
    if head == baseline { NothingDiffers(head); }
  }

  lemma {:induction false} NothingToPatch(baseline: Facts, project: Option<string>)
    ensures Patched(baseline, Diff([], [], []), project) == baseline
  {
  }

  lemma {:induction false} NothingDiffers(facts: Facts)
    ensures DiffOf(facts, facts) == Diff([], [], [])
  {
    AddedIdsMean(facts, facts);
    var modified := ModifiedIds(facts, facts);
    if modified != [] {
      ModifiedIdsMean(facts, facts, modified[0]);
    }
  }

  // ---------------------------------------------------------------- whole scopes

  datatype Member = Member(project: string, schema: Option<int>, nodes: Facts, edges: Facts)

  datatype ProjectDiff = ProjectDiff(project: string, nodes: Diff, edges: Diff)

  datatype Counts = Counts(added: nat, removed: nat, modified: nat)

  datatype Changes =
    | MissingBaseline | IncompatibleScope | UnknownSchema | IncompatibleSchema
    | Compared(projects: seq<ProjectDiff>, nodes: Counts, edges: Counts)

  function Projects(scope: seq<Member>): (r: seq<string>)
    ensures |r| == |scope|
  {
    seq(|scope|, i requires 0 <= i < |scope| => scope[i].project)
  }

  /** The schema major every member shares, or nothing when it is unknown. */
  function SchemaOf(scope: seq<Member>): Option<int> {
    if scope != [] && forall i :: 0 <= i < |scope| ==> scope[i].schema == scope[0].schema then scope[0].schema else None
  }

  function DiffMember(head: Member, baseline: Member): ProjectDiff {
    ProjectDiff(head.project, DiffOf(head.nodes, baseline.nodes), DiffOf(head.edges, baseline.edges))
  }

  function DiffScopes(head: seq<Member>, baseline: seq<Member>): (r: seq<ProjectDiff>)
    requires |head| == |baseline|
    ensures |r| == |head|
  {
    seq(|head|, i requires 0 <= i < |head| => DiffMember(head[i], baseline[i]))
  }

  function Sum(c: Counts, d: Diff): Counts {
    Counts(c.added + |d.added|, c.removed + |d.removed|, c.modified + |d.modified|)
  }

  function Totals(diffs: seq<ProjectDiff>, nodes: bool): Counts {
    if diffs == [] then Counts(0, 0, 0)
    else
      var last := diffs[|diffs| - 1];
      Sum(Totals(diffs[..|diffs| - 1], nodes), if nodes then last.nodes else last.edges)
  }

  /** Members are held by project name, in its order, so equal projects means equal places. */
  method Compare(head: seq<Member>, baseline: Option<seq<Member>>) returns (r: Changes)
    ensures r.MissingBaseline? <==> baseline.None?
    ensures r.IncompatibleScope? <==> baseline.Some? && Projects(head) != Projects(baseline.value)
    ensures r.UnknownSchema? <==> baseline.Some? && Projects(head) == Projects(baseline.value)
                                  && (SchemaOf(head).None? || SchemaOf(baseline.value).None?)
    ensures r.IncompatibleSchema? <==> baseline.Some? && Projects(head) == Projects(baseline.value)
                                       && SchemaOf(head).Some? && SchemaOf(baseline.value).Some?
                                       && SchemaOf(head) != SchemaOf(baseline.value)
    ensures r.Compared? ==> |head| == |baseline.value| && r.projects == DiffScopes(head, baseline.value)
                            && r.nodes == Totals(r.projects, true) && r.edges == Totals(r.projects, false)
  {
    if baseline.None? { return MissingBaseline; }
    var base := baseline.value;
    if Projects(head) != Projects(base) { return IncompatibleScope; }
    if SchemaOf(head).None? || SchemaOf(base).None? { return UnknownSchema; }
    if SchemaOf(head) != SchemaOf(base) { return IncompatibleSchema; }
    assert |Projects(head)| == |Projects(base)|;
    var projects, nodes, edges := DiffAll(head, base);
    r := Compared(projects, nodes, edges);
  }

  lemma {:induction false} TotalsSnoc(diffs: seq<ProjectDiff>, d: ProjectDiff)
    ensures Totals(diffs + [d], true) == Sum(Totals(diffs, true), d.nodes)
    ensures Totals(diffs + [d], false) == Sum(Totals(diffs, false), d.edges)
  {
    assert (diffs + [d])[..|diffs|] == diffs;
  }

  method DiffAll(head: seq<Member>, baseline: seq<Member>) returns (projects: seq<ProjectDiff>, nodes: Counts, edges: Counts)
    requires |head| == |baseline|
    ensures projects == DiffScopes(head, baseline)
    ensures nodes == Totals(projects, true) && edges == Totals(projects, false)
  {
    projects, nodes, edges := [], Counts(0, 0, 0), Counts(0, 0, 0);
    for i := 0 to |head|
      invariant |projects| == i && projects == DiffScopes(head, baseline)[..i]
      invariant nodes == Totals(projects, true) && edges == Totals(projects, false)
    {
      var n := DiffKind(head[i].nodes, baseline[i].nodes);
      var e := DiffKind(head[i].edges, baseline[i].edges);
      var d := ProjectDiff(head[i].project, n, e);
      PrefixSnoc(DiffScopes(head, baseline), i);
      TotalsSnoc(projects, d);
      projects := projects + [d];
      nodes, edges := Sum(nodes, n), Sum(edges, e);
    }
  }

  /** A member put back together from the baseline's and its diff. */
  function PatchedMember(baseline: Member, d: ProjectDiff): Member {
    baseline.(nodes := Patched(baseline.nodes, d.nodes, Some(d.project)), edges := Patched(baseline.edges, d.edges, None))
  }

  ghost predicate OwnMember(m: Member) {
    Own(m.nodes, Some(m.project)) && Own(m.edges, None)
  }

  /** A comparison that was made can be applied: every project of the baseline becomes the head's. */
  lemma {:induction false} ScopesPatchBack(head: seq<Member>, baseline: seq<Member>, i: nat)
    requires |head| == |baseline| && i < |head| && Projects(head) == Projects(baseline)
    requires OwnMember(head[i]) && OwnMember(baseline[i])
    ensures PatchedMember(baseline[i], DiffScopes(head, baseline)[i]) == head[i].(schema := baseline[i].schema)
  {
    assert Projects(head)[i] == Projects(baseline)[i];
    PatchRestoresHead(head[i].nodes, baseline[i].nodes, Some(head[i].project));
    PatchRestoresHead(head[i].edges, baseline[i].edges, None);
  }

  // ---------------------------------------------------------------- the facts an answer carries

  /** The head documents an answer about changes carries for one kind of one project. */
  function ChangeFacts(d: Diff, project: Option<string>): seq<Doc> {
    d.added + Afters(d.modified, project)
  }

  /** They are exactly the head's documents that are new or different, as the head holds them. */
  lemma {:induction false} ChangeFactsAreHeadDocuments(head: Facts, baseline: Facts, project: Option<string>, doc: Doc)
    requires Own(head, project) && Own(baseline, project)
    ensures doc in ChangeFacts(DiffOf(head, baseline), project) <==>
      exists id :: id in head && head[id] == doc && (id !in baseline || baseline[id] != doc)
  {
    var added, modified := AddedIds(head, baseline), ModifiedIds(head, baseline);
    AddedIdsMean(head, baseline);
    forall id ensures id in modified <==> Differs(head, baseline, id) {
      ModifiedIdsMean(head, baseline, id);
      assert id in modified <==> id in Elements(modified);
    }
    AftersAreHead(head, baseline, project, modified);
    DocsIn(head, added, doc);
    DocsIn(head, modified, doc);
    forall id | id in head && head[id] == doc
      ensures (id in added || id in modified) <==> (id !in baseline || baseline[id] != doc)
    {
      assert id in added <==> id in Elements(added);
      if id in baseline { DiffersIsReal(head, baseline, project, id); }
    }
  }

  lemma {:induction false} DocsIn(facts: Facts, ids: seq<Id>, doc: Doc)
    requires forall id :: id in ids ==> id in facts
    ensures doc in Docs(facts, ids) <==> exists id :: id in ids && facts[id] == doc
  {
    if id :| id in ids && facts[id] == doc {
      var i :| 0 <= i < |ids| && ids[i] == id;
      assert Docs(facts, ids)[i] == doc;
    }
  }
}
