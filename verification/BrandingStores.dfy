/** Two guideline stores with one behaviour: an assignment list in memory, and keyed tables with a cascading delete. */
module BrandingStores {
  import opened Common

  datatype Guideline = Guideline(id: string, orgId: string, body: string)

  datatype Assignment = Assignment(guidelineId: string, siteUrl: string, orgId: string)

  /** A site of an org: the primary key of the assignment table. */
  type Site = (string, string)

  function SiteOf(a: Assignment): Site {
    (a.siteUrl, a.orgId)
  }

  datatype Memory = Memory(guidelines: map<string, Guideline>, assignments: seq<Assignment>)

  datatype Tables = Tables(guidelines: map<string, Guideline>, sites: map<Site, string>)

  datatype Op =
    | Add(guideline: Guideline)
    | Remove(id: string)
    | Assign(guidelineId: string, site: Site)
    | Unassign(site: Site)

  // ---- The in-memory store -------------------------------------------------------------------------

  function DropGuideline(list: seq<Assignment>, id: string): seq<Assignment> {
    if list == [] then [] else
    var before, a := DropGuideline(list[..|list|-1], id), list[|list|-1];
    if a.guidelineId == id then before else before + [a]
  }

  function DropSite(list: seq<Assignment>, site: Site): seq<Assignment> {
    if list == [] then [] else
    var before, a := DropSite(list[..|list|-1], site), list[|list|-1];
    if SiteOf(a) == site then before else before + [a]
  }

  function MemoryStep(m: Memory, op: Op): Memory {
    match op
    case Add(g) => m.(guidelines := m.guidelines[g.id := g])
    case Remove(id) => Memory(m.guidelines - {id}, DropGuideline(m.assignments, id))
    case Assign(id, site) => m.(assignments := DropSite(m.assignments, site) + [Assignment(id, site.0, site.1)])
    case Unassign(site) => m.(assignments := DropSite(m.assignments, site))
  }

  /** `find`: the first assignment of a site. */
  function FindSite(list: seq<Assignment>, site: Site): Option<string> {
    if list == [] then None
    else if SiteOf(list[0]) == site then Some(list[0].guidelineId)
    else FindSite(list[1..], site)
  }

  function Lookup(guidelines: map<string, Guideline>, id: Option<string>): Option<Guideline> {
    if id.Some? && id.value in guidelines then Some(guidelines[id.value]) else None
  }

  function SitesInList(list: seq<Assignment>, id: string): seq<string> {
    if list == [] then [] else
    var before, a := SitesInList(list[..|list|-1], id), list[|list|-1];
    if a.guidelineId == id then before + [a.siteUrl] else before
  }

  class GuidelineStore {
    var guidelines: map<string, Guideline>
    var assignments: seq<Assignment>

    constructor ()
      ensures Contents() == Memory(map[], [])
    {
      guidelines, assignments := map[], [];
    }

    function Contents(): Memory
      reads this
    {
      Memory(guidelines, assignments)
    }

    method AddGuideline(g: Guideline)
      modifies this
      ensures Contents() == MemoryStep(old(Contents()), Add(g))
    {
      guidelines := guidelines[g.id := g];
    }

    method RemoveGuideline(id: string)
      modifies this
      ensures Contents() == MemoryStep(old(Contents()), Remove(id))
    {
      guidelines := guidelines - {id};
      assignments := DropGuideline(assignments, id);
    }

    method AssignToSite(guidelineId: string, site: Site)
      modifies this
      ensures Contents() == MemoryStep(old(Contents()), Assign(guidelineId, site))
    {
      assignments := DropSite(assignments, site);
      assignments := assignments + [Assignment(guidelineId, site.0, site.1)];
    }

    method UnassignFromSite(site: Site)
      modifies this
      ensures Contents() == MemoryStep(old(Contents()), Unassign(site))
    {
      assignments := DropSite(assignments, site);
    }

    method GetGuidelineForSite(site: Site) returns (g: Option<Guideline>)
      ensures g == Lookup(guidelines, FindSite(assignments, site))
    {
      for i := 0 to |assignments|
        invariant FindSite(assignments, site) == FindSite(assignments[i..], site)
      {
        if SiteOf(assignments[i]) == site {
          return Lookup(guidelines, Some(assignments[i].guidelineId));
        }
        assert assignments[i..][1..] == assignments[i + 1..];
      }
      g := None;
    }

    method GetSiteAssignments(guidelineId: string) returns (sites: seq<string>)
      ensures sites == SitesInList(assignments, guidelineId)
    {
      sites := [];
      for i := 0 to |assignments|
        invariant sites == SitesInList(assignments[..i], guidelineId)
      {
        assert assignments[..i + 1][..i] == assignments[..i];
        if assignments[i].guidelineId == guidelineId {
          sites := sites + [assignments[i].siteUrl];
        }
      }
      assert assignments[..|assignments|] == assignments;
    }
  }

  // ---- The keyed tables ----------------------------------------------------------------------------

  /** A statement either succeeds or violates a key and changes nothing. */
  predicate Accepted(t: Tables, op: Op) {
    match op
    case Add(g) => g.id !in t.guidelines          // primary key
    case Assign(id, _) => id in t.guidelines      // foreign key
    case _ => true
  }

  function TablesStep(t: Tables, op: Op): Tables {
    if !Accepted(t, op) then t else
    match op
    case Add(g) => t.(guidelines := t.guidelines[g.id := g])
    case Remove(id) => Tables(t.guidelines - {id}, map s | s in t.sites && t.sites[s] != id :: t.sites[s])
    case Assign(id, site) => t.(sites := t.sites[site := id])
    case Unassign(site) => t.(sites := t.sites - {site})
  }

  class SqliteAdapter {
    var guidelines: map<string, Guideline>
    var sites: map<Site, string>

    constructor ()
      ensures Contents() == Tables(map[], map[])
    {
      guidelines, sites := map[], map[];
    }

    function Contents(): Tables
      reads this
    {
      Tables(guidelines, sites)
    }

    /** INSERT: false stands for the key violation. */
    method AddGuideline(g: Guideline) returns (ok: bool)
      modifies this
      ensures Contents() == TablesStep(old(Contents()), Add(g)) && (ok <==> Accepted(old(Contents()), Add(g)))
    {
      ok := g.id !in guidelines;
      if ok {
        guidelines := guidelines[g.id := g];
      }
    }

    /** DELETE, cascading to the assignments. */
    method RemoveGuideline(id: string)
      modifies this
      ensures Contents() == TablesStep(old(Contents()), Remove(id))
    {
      guidelines := guidelines - {id};
      sites := map s | s in sites && sites[s] != id :: sites[s];
    }

    /** INSERT OR REPLACE on the (site, org) key, checked against the guideline table. */
    method AssignToSite(guidelineId: string, site: Site) returns (ok: bool)
      modifies this
      ensures Contents() == TablesStep(old(Contents()), Assign(guidelineId, site)) && (ok <==> guidelineId in old(guidelines))
    {
      ok := guidelineId in guidelines;
      if ok {
        sites := sites[site := guidelineId];
      }
    }

    method UnassignFromSite(site: Site)
      modifies this
      ensures Contents() == TablesStep(old(Contents()), Unassign(site))
    {
      sites := sites - {site};
    }

    /** SELECT: one URL per row of the guideline, in no particular order. */
    method GetSiteAssignments(guidelineId: string) returns (urls: seq<string>)
      ensures ListsRows(urls, SitesInTable(Contents(), guidelineId))
    {
      var all := SitesInTable(Contents(), guidelineId);
      var rest: set<Site> := {};
      rest, urls := all, [];
      while rest != {}
        invariant rest <= all
        invariant ListsRows(urls, all - rest)
        decreases |rest|
      {
        var site :| site in rest;
        forall url { WithUrlNext(all - rest, site, url); }
        assert all - (rest - {site}) == (all - rest) + {site};
        rest, urls := rest - {site}, urls + [site.0];
      }
      assert all - rest == all;
    }
  }

  function RowOf(t: Tables, site: Site): Option<string> {
    if site in t.sites then Some(t.sites[site]) else None
  }

  function SitesInTable(t: Tables, id: string): set<Site> {
    set s | s in t.sites && t.sites[s] == id
  }

  /** The rows of a set with one URL; they differ in the org. */
  function WithUrl(rows: set<Site>, url: string): set<Site> {
    set s | s in rows && s.0 == url
  }

  lemma WithUrlNext(rows: set<Site>, site: Site, url: string)
    requires site !in rows
    ensures |WithUrl(rows + {site}, url)| == |WithUrl(rows, url)| + if site.0 == url then 1 else 0
  {
    assert WithUrl(rows + {site}, url) == WithUrl(rows, url) + if site.0 == url then {site} else {};
  }

  // ---- The correspondence --------------------------------------------------------------------------

  /** At most one assignment per site and org. */
  ghost predicate OnePerSite(list: seq<Assignment>) {
    forall i, j :: 0 <= i < j < |list| ==> SiteOf(list[i]) != SiteOf(list[j])
  }

  ghost predicate Related(m: Memory, t: Tables) {
    && m.guidelines == t.guidelines
    && OnePerSite(m.assignments)
    && (forall a :: a in m.assignments ==> SiteOf(a) in t.sites && t.sites[SiteOf(a)] == a.guidelineId)
    && (forall s: Site :: s in t.sites ==> Assignment(t.sites[s], s.0, s.1) in m.assignments)
    && (forall s: Site :: s in t.sites ==> t.sites[s] in t.guidelines)
  }

  function PairsInList(list: seq<Assignment>, id: string): set<Site> {
    set a | a in list && a.guidelineId == id :: SiteOf(a)
  }

  /** A list of URLs has one entry per row. */
  ghost predicate ListsRows(urls: seq<string>, rows: set<Site>) {
    forall url :: multiset(urls)[url] == |WithUrl(rows, url)|
  }

  /** Every question has the same answer: the guideline of a site, a guideline by id, its sites, and the list of their URLs
      up to its order. */
  ghost predicate SameAnswers(m: Memory, t: Tables) {
    && (forall s :: Lookup(m.guidelines, FindSite(m.assignments, s)) == Lookup(t.guidelines, RowOf(t, s)))
    && (forall id :: Lookup(m.guidelines, Some(id)) == Lookup(t.guidelines, Some(id)))
    && (forall id :: PairsInList(m.assignments, id) == SitesInTable(t, id))
    && (forall id :: ListsRows(SitesInList(m.assignments, id), SitesInTable(t, id)))
  }

  lemma {:induction false} DropSiteIs(list: seq<Assignment>, site: Site)
    ensures forall a :: a in DropSite(list, site) <==> a in list && SiteOf(a) != site
    ensures OnePerSite(list) ==> OnePerSite(DropSite(list, site))
  {
    if list != [] {
      var front, last := list[..|list|-1], list[|list|-1];
      DropSiteIs(front, site);
      assert list == front + [last];
      var before := DropSite(front, site);
      if OnePerSite(list) {
        forall i | 0 <= i < |before| ensures SiteOf(before[i]) != SiteOf(last) { assert before[i] in front; }
      }
    }
  }

  lemma {:induction false} DropGuidelineIs(list: seq<Assignment>, id: string)
    ensures forall a :: a in DropGuideline(list, id) <==> a in list && a.guidelineId != id
    ensures OnePerSite(list) ==> OnePerSite(DropGuideline(list, id))
  {
    if list != [] {
      var front, last := list[..|list|-1], list[|list|-1];
      DropGuidelineIs(front, id);
      assert list == front + [last];
      var before := DropGuideline(front, id);
      if OnePerSite(list) {
        forall i | 0 <= i < |before| ensures SiteOf(before[i]) != SiteOf(last) { assert before[i] in front; }
      }
    }
  }

  lemma {:induction false} FindSiteIs(list: seq<Assignment>, site: Site)
    ensures FindSite(list, site).None? <==> forall a :: a in list ==> SiteOf(a) != site
    ensures FindSite(list, site).Some? ==> Assignment(FindSite(list, site).value, site.0, site.1) in list
  {
    if list != [] {
      FindSiteIs(list[1..], site);
      assert list == [list[0]] + list[1..];
    }
  }

  lemma RelatedAnswers(m: Memory, t: Tables)
    requires Related(m, t)
    ensures SameAnswers(m, t)
  {
    forall s
      ensures FindSite(m.assignments, s) == RowOf(t, s)
    {
      FindSiteIs(m.assignments, s);
    }
    forall id
      ensures PairsInList(m.assignments, id) == SitesInTable(t, id)
    {
      forall s | s in SitesInTable(t, id)
        ensures s in PairsInList(m.assignments, id)
      {
        assert SiteOf(Assignment(id, s.0, s.1)) == s;
      }
    }
    forall id
      ensures ListsRows(SitesInList(m.assignments, id), SitesInTable(t, id))
    {
      forall url { ListedUrls(m.assignments, id, url); }
    }
  }

  lemma AssignKeepsRelated(m: Memory, t: Tables, id: string, site: Site)
    requires Related(m, t) && id in t.guidelines
    ensures Related(MemoryStep(m, Assign(id, site)), TablesStep(t, Assign(id, site)))
  {
    DropSiteIs(m.assignments, site);
    var before, a := DropSite(m.assignments, site), Assignment(id, site.0, site.1);
    assert forall i :: 0 <= i < |before| ==> before[i] in before;
    assert forall x :: x in before + [a] <==> x in before || x == a;
  }

  lemma StepKeepsRelated(m: Memory, t: Tables, op: Op)
    requires Related(m, t) && Accepted(t, op)
    ensures Related(MemoryStep(m, op), TablesStep(t, op))
  {
    match op
    case Add(g) =>
    case Remove(id) => DropGuidelineIs(m.assignments, id);
    case Assign(id, site) => AssignKeepsRelated(m, t, id, site);
    case Unassign(site) => DropSiteIs(m.assignments, site);
  }

  function MemoryRun(ops: seq<Op>): Memory {
    if ops == [] then Memory(map[], []) else MemoryStep(MemoryRun(ops[..|ops|-1]), ops[|ops|-1])
  }

  function TablesRun(ops: seq<Op>): Tables {
    if ops == [] then Tables(map[], map[]) else TablesStep(TablesRun(ops[..|ops|-1]), ops[|ops|-1])
  }

  /** Every operation of a run is one the tables accept: new ids are fresh and assigned ids exist. */
  ghost predicate AllAccepted(ops: seq<Op>) {
    forall i :: 0 <= i < |ops| ==> Accepted(TablesRun(ops[..i]), ops[i])
  }

  lemma {:induction false} RunKeepsRelated(ops: seq<Op>)
    requires AllAccepted(ops)
    ensures Related(MemoryRun(ops), TablesRun(ops))
  {
    if ops != [] {
      var front := ops[..|ops|-1];
      assert forall i :: 0 <= i < |front| ==> front[..i] == ops[..i];
      RunKeepsRelated(front);
      StepKeepsRelated(MemoryRun(front), TablesRun(front), ops[|ops|-1]);
    }
  }

  /** After every such run the two stores answer alike, with at most one assignment per site and org, and whatever order
      the query takes, both list the same URLs equally often. */
  lemma StoresAgree(ops: seq<Op>)
    requires AllAccepted(ops)
    ensures SameAnswers(MemoryRun(ops), TablesRun(ops)) && OnePerSite(MemoryRun(ops).assignments)
    ensures forall id, urls :: ListsRows(urls, SitesInTable(TablesRun(ops), id)) ==>
              multiset(urls) == multiset(SitesInList(MemoryRun(ops).assignments, id))
  {
    RunKeepsRelated(ops);
    RelatedAnswers(MemoryRun(ops), TablesRun(ops));
    forall id, urls | ListsRows(urls, SitesInTable(TablesRun(ops), id))
      ensures multiset(urls) == multiset(SitesInList(MemoryRun(ops).assignments, id))
    {
      SameUrls(urls, SitesInList(MemoryRun(ops).assignments, id), SitesInTable(TablesRun(ops), id));
    }
  }

  // ---- What a run leaves, operation by operation ---------------------------------------------------

  /** Does an operation end the assignment of a guideline to a site? */
  predicate EndsAssignment(op: Op, site: Site, id: string) {
    match op
    case Assign(_, other) => other == site
    case Unassign(other) => other == site
    case Remove(removed) => removed == id
    case Add(_) => false
  }

  /** The guideline was assigned to the site, and nothing since ended that. */
  ghost predicate Assigned(ops: seq<Op>, site: Site, id: string) {
    exists k :: 0 <= k < |ops| && ops[k] == Assign(id, site) && forall j :: k < j < |ops| ==> !EndsAssignment(ops[j], site, id)
  }

  /** The guideline was added and not removed since. */
  ghost predicate Added(ops: seq<Op>, g: Guideline) {
    exists k :: 0 <= k < |ops| && ops[k] == Add(g) && forall j :: k < j < |ops| ==> ops[j] != Remove(g.id)
  }

  lemma AssignedSnoc(ops: seq<Op>, op: Op, site: Site, id: string)
    ensures Assigned(ops + [op], site, id) <==> op == Assign(id, site) || (Assigned(ops, site, id) && !EndsAssignment(op, site, id))
  {
    var all := ops + [op];
    assert all[|ops|] == op;
    if Assigned(ops, site, id) && !EndsAssignment(op, site, id) {
      var k :| 0 <= k < |ops| && ops[k] == Assign(id, site) && forall j :: k < j < |ops| ==> !EndsAssignment(ops[j], site, id);
      assert all[k] == Assign(id, site);
    }
    if Assigned(all, site, id) && op != Assign(id, site) {
      var k :| 0 <= k < |all| && all[k] == Assign(id, site) && forall j :: k < j < |all| ==> !EndsAssignment(all[j], site, id);
      assert ops[k] == Assign(id, site);
      assert forall j :: k < j < |ops| ==> ops[j] == all[j];
    }
  }

  lemma AddedSnoc(ops: seq<Op>, op: Op, g: Guideline)
    ensures Added(ops + [op], g) <==> op == Add(g) || (Added(ops, g) && op != Remove(g.id))
  {
    var all := ops + [op];
    assert all[|ops|] == op;
    if Added(ops, g) && op != Remove(g.id) {
      var k :| 0 <= k < |ops| && ops[k] == Add(g) && forall j :: k < j < |ops| ==> ops[j] != Remove(g.id);
      assert all[k] == Add(g);
    }
    if Added(all, g) && op != Add(g) {
      var k :| 0 <= k < |all| && all[k] == Add(g) && forall j :: k < j < |all| ==> all[j] != Remove(g.id);
      assert ops[k] == Add(g);
      assert forall j :: k < j < |ops| ==> ops[j] == all[j];
    }
  }

  lemma StepAssigns(t: Tables, op: Op, site: Site, id: string)
    requires Accepted(t, op)
    ensures RowOf(TablesStep(t, op), site) == Some(id) <==> op == Assign(id, site) || (RowOf(t, site) == Some(id) && !EndsAssignment(op, site, id))
  {
  }

  lemma StepAdds(t: Tables, op: Op, g: Guideline)
    requires Accepted(t, op)
    ensures Lookup(TablesStep(t, op).guidelines, Some(g.id)) == Some(g)
       <==> op == Add(g) || (Lookup(t.guidelines, Some(g.id)) == Some(g) && op != Remove(g.id))
    ensures (forall id :: id in t.guidelines ==> t.guidelines[id].id == id) ==>
              forall id :: id in TablesStep(t, op).guidelines ==> TablesStep(t, op).guidelines[id].id == id
  {
  }

  lemma AcceptedPrefix(ops: seq<Op>)
    requires ops != [] && AllAccepted(ops)
    ensures AllAccepted(ops[..|ops|-1]) && Accepted(TablesRun(ops[..|ops|-1]), ops[|ops|-1])
    ensures TablesRun(ops) == TablesStep(TablesRun(ops[..|ops|-1]), ops[|ops|-1])
  {
    var front := ops[..|ops|-1];
    assert forall i :: 0 <= i < |front| ==> front[..i] == ops[..i];
  }

  lemma {:induction false} RunAssigns(ops: seq<Op>, site: Site, id: string)
    requires AllAccepted(ops)
    ensures RowOf(TablesRun(ops), site) == Some(id) <==> Assigned(ops, site, id)
  {
    if ops != [] {
      var front, op := ops[..|ops|-1], ops[|ops|-1];
      assert front + [op] == ops;
      AcceptedPrefix(ops);
      RunAssigns(front, site, id);
      StepAssigns(TablesRun(front), op, site, id);
      AssignedSnoc(front, op, site, id);
    }
  }

  lemma {:induction false} RunAdds(ops: seq<Op>, g: Guideline)
    requires AllAccepted(ops)
    ensures Lookup(TablesRun(ops).guidelines, Some(g.id)) == Some(g) <==> Added(ops, g)
    ensures forall id :: id in TablesRun(ops).guidelines ==> TablesRun(ops).guidelines[id].id == id
  {
    if ops != [] {
      var front, op := ops[..|ops|-1], ops[|ops|-1];
      assert front + [op] == ops;
      AcceptedPrefix(ops);
      RunAdds(front, g);
      StepAdds(TablesRun(front), op, g);
      AddedSnoc(front, op, g);
    }
  }

  /** After every run of accepted operations, in both stores: a guideline is found by its id exactly when it was added and not
      removed since, and it is the guideline of a site exactly when it was assigned to the site, the site got no other
      assignment and none taken away since, and the guideline was not removed. */
  lemma AnswersMean(ops: seq<Op>, site: Site, g: Guideline)
    requires AllAccepted(ops)
    ensures Lookup(TablesRun(ops).guidelines, Some(g.id)) == Some(g) <==> Added(ops, g)
    ensures Lookup(MemoryRun(ops).guidelines, Some(g.id)) == Some(g) <==> Added(ops, g)
    ensures Lookup(TablesRun(ops).guidelines, RowOf(TablesRun(ops), site)) == Some(g) <==> Assigned(ops, site, g.id) && Added(ops, g)
    ensures Lookup(MemoryRun(ops).guidelines, FindSite(MemoryRun(ops).assignments, site)) == Some(g) <==> Assigned(ops, site, g.id) && Added(ops, g)
  {
    var m, t := MemoryRun(ops), TablesRun(ops);
    RunAdds(ops, g);
    RunAssigns(ops, site, g.id);
    RunKeepsRelated(ops);
    RelatedAnswers(m, t);
    var row := RowOf(t, site);
    assert Lookup(m.guidelines, FindSite(m.assignments, site)) == Lookup(t.guidelines, row);
  }

  /** One more operation keeps the stores in agreement exactly when the tables accept it
      or it re-adds a guideline that is stored already. */
  lemma StepAgreesIff(ops: seq<Op>, op: Op)
    requires AllAccepted(ops)
    ensures var m, t := MemoryRun(ops), TablesRun(ops);
      SameAnswers(MemoryStep(m, op), TablesStep(t, op))
      <==> Accepted(t, op) || (op.Add? && t.guidelines[op.guideline.id] == op.guideline)
  {
    var m, t := MemoryRun(ops), TablesRun(ops);
    RunKeepsRelated(ops);
    if Accepted(t, op) {
      StepKeepsRelated(m, t, op);
      RelatedAnswers(MemoryStep(m, op), TablesStep(t, op));
    } else if op.Add? {
      RelatedAnswers(m, t);
      if t.guidelines[op.guideline.id] == op.guideline {
        assert MemoryStep(m, op) == m;
      } else {
        assert Lookup(MemoryStep(m, op).guidelines, Some(op.guideline.id)) == Some(op.guideline);
      }
    } else {
      var after := MemoryStep(m, op);
      assert after.assignments[|after.assignments| - 1] in after.assignments;
      assert op.site in PairsInList(after.assignments, op.guidelineId);
      assert op.site !in SitesInTable(t, op.guidelineId);
    }
  }

  /** The listed sites of a guideline are its table rows, one entry per row. */
  lemma {:induction false} ListedSites(list: seq<Assignment>, id: string)
    requires OnePerSite(list)
    ensures |SitesInList(list, id)| == |PairsInList(list, id)|
  {
    if list != [] {
      var front, last := list[..|list|-1], list[|list|-1];
      ListedSites(front, id);
      PairsSnoc(front, last, id);
      assert list == front + [last];
      assert forall i :: 0 <= i < |front| ==> SiteOf(front[i]) != SiteOf(last);
    }
  }

  lemma ListedNext(front: seq<Assignment>, last: Assignment, id: string, url: string)
    ensures multiset(SitesInList(front + [last], id))[url]
         == multiset(SitesInList(front, id))[url] + if last.guidelineId == id && last.siteUrl == url then 1 else 0
  {
    var before := SitesInList(front, id);
    assert (front + [last])[..|front|] == front;
    assert multiset(before + [last.siteUrl])[url] == multiset(before)[url] + if last.siteUrl == url then 1 else 0;
  }

  /** A URL is listed once for each org that assigned the guideline to it. */
  lemma {:induction false} ListedUrls(list: seq<Assignment>, id: string, url: string)
    requires OnePerSite(list)
    ensures multiset(SitesInList(list, id))[url] == |WithUrl(PairsInList(list, id), url)|
  {
    if list != [] {
      var front, last := list[..|list|-1], list[|list|-1];
      ListedUrls(front, id, url);
      ListedNext(front, last, id, url);
      PairsSnoc(front, last, id);
      assert list == front + [last];
      SiteIsNew(front, last, id);
      assert PairsInList(list, id) == if last.guidelineId == id then PairsInList(front, id) + {SiteOf(last)} else PairsInList(front, id);
      WithUrlNext(PairsInList(front, id), SiteOf(last), url);
    }
  }

  lemma SiteIsNew(front: seq<Assignment>, last: Assignment, id: string)
    requires OnePerSite(front + [last])
    ensures SiteOf(last) !in PairsInList(front, id)
  {
    forall a | a in front
      ensures SiteOf(a) != SiteOf(last)
    {
      var i :| 0 <= i < |front| && front[i] == a;
      assert (front + [last])[i] == a && (front + [last])[|front|] == last;
    }
  }

  /** The lists of both stores hold the same URLs equally often. */
  lemma SameUrls(urls: seq<string>, others: seq<string>, rows: set<Site>)
    requires ListsRows(urls, rows) && ListsRows(others, rows)
    ensures multiset(urls) == multiset(others)
  {
    forall url ensures multiset(urls)[url] == multiset(others)[url] { assert multiset(urls)[url] == |WithUrl(rows, url)|; }
  }

  lemma PairsSnoc(front: seq<Assignment>, last: Assignment, id: string)
    ensures PairsInList(front + [last], id) == PairsInList(front, id) + if last.guidelineId == id then {SiteOf(last)} else {}
  {
    assert forall a :: a in front + [last] <==> a in front || a == last;
  }

  /** Assigning an unknown guideline: the list takes it, the tables refuse it. */
  lemma UnknownGuidelineShows(id: string, site: Site)
    ensures !SameAnswers(MemoryStep(MemoryRun([]), Assign(id, site)), TablesStep(TablesRun([]), Assign(id, site)))
  {
    StepAgreesIff([], Assign(id, site));
  }
}
