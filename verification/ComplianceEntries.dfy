/** What the entries of the two matrices consist of: which regulations, how described, and each violation once. */
module ComplianceEntries {
  import opened Common
  import opened Jurisdictions
  import opened Compliance
  import opened ComplianceViews

  // ---- Which regulations an entry has ----------------------------------------------------------

  predicate Passes(db: Db, req: Requirement, sectors: seq<string>) {
    RegulationMatchesSectors(SectorsOf(db, req.regulationId), sectors)
  }

  /** The groups are those of the rows that pass the sector filter, each represented by one of its rows. */
  ghost predicate GroupsOf(groups: OMap<string, Group>, db: Db, reqs: seq<Requirement>, sectors: seq<string>) {
    && (forall id :: id in groups.vals ==>
          groups.vals[id].rep in reqs && groups.vals[id].rep.regulationId == id && Passes(db, groups.vals[id].rep, sectors))
    && (forall r :: r in reqs && Passes(db, r, sectors) ==> r.regulationId in groups.vals)
  }

  lemma {:induction false} GroupsAreOf(db: Db, reqs: seq<Requirement>, issues: seq<ParsedIssue>, sectors: seq<string>)
    ensures GroupsOf(Groups(db, reqs, issues, sectors), db, reqs, sectors)
  {
    if reqs != [] {
      var front, req := reqs[..|reqs|-1], reqs[|reqs|-1];
      GroupsAreOf(db, front, issues, sectors);
      assert forall r :: r in reqs <==> r in front || r == req by {
        forall r { InFrontOrLast(reqs, r); }
      }
    }
  }

  lemma {:induction false} ResultCount(db: Db, keys: seq<string>, groups: map<string, Group>, includeOptional: bool)
    requires forall k :: k in keys ==> k in groups && groups[k].violations.Valid()
    ensures |BuildRegulations(db, keys, groups, includeOptional).0| == |keys|
  {
    if keys != [] {
      ResultCount(db, keys[..|keys|-1], groups, includeOptional);
    }
  }

  /** There is one result per group, in the order of the groups. */
  lemma {:induction false} ResultAt(db: Db, keys: seq<string>, groups: map<string, Group>, includeOptional: bool, i: nat)
    requires forall k :: k in keys ==> k in groups && groups[k].violations.Valid()
    requires i < |keys|
    ensures |BuildRegulations(db, keys, groups, includeOptional).0| == |keys|
    ensures BuildRegulations(db, keys, groups, includeOptional).0[i] == BuildRegulation(db, keys[i], groups[keys[i]], includeOptional).0
  {
    ResultCount(db, keys, groups, includeOptional);
    ResultCount(db, keys[..|keys|-1], groups, includeOptional);
    if i < |keys| - 1 {
      ResultAt(db, keys[..|keys|-1], groups, includeOptional, i);
    }
  }

  /** A result repeats what the regulation table says. */
  ghost predicate Describes(r: RegulationResult, db: Db) {
    r.regulationId in db.regulations
    && var reg := db.regulations[r.regulationId];
      r.regulationName == reg.name && r.shortName == reg.shortName && r.enforcementDate == reg.enforcementDate && r.scope == reg.scope
  }

  ghost predicate Joined(db: Db, req: Requirement) {
    req.regulationId in db.regulations
    && var reg := db.regulations[req.regulationId];
      && req.regulationName == reg.name && req.regulationShortName == reg.shortName
      && req.enforcementDate == reg.enforcementDate && req.jurisdictionId == reg.jurisdictionId
  }

  /** One result for each regulation with a row that passes, described as the regulation table does. */
  ghost predicate ResultsOf(results: seq<RegulationResult>, db: Db, reqs: seq<Requirement>, sectors: seq<string>) {
    && (forall i, j :: 0 <= i < j < |results| ==> results[i].regulationId != results[j].regulationId)
    && (forall r :: r in results ==> Describes(r, db))
    && (forall r :: r in results ==> HasRow(reqs, db, sectors, r.regulationId))
    && (forall q :: q in reqs && Passes(db, q, sectors) ==> HasResult(results, q.regulationId))
  }

  ghost predicate HasRow(reqs: seq<Requirement>, db: Db, sectors: seq<string>, regulationId: string) {
    exists q :: q in reqs && q.regulationId == regulationId && Passes(db, q, sectors)
  }

  ghost predicate HasResult(results: seq<RegulationResult>, regulationId: string) {
    exists r :: r in results && r.regulationId == regulationId
  }

  lemma EntryResults(db: Db, id: Id, reqs: seq<Requirement>, issues: seq<ParsedIssue>, sectors: seq<string>, includeOptional: bool)
    requires forall r :: r in reqs ==> Joined(db, r)
    ensures ResultsOf(JurisdictionEntry(db, id, reqs, issues, sectors, includeOptional).regulations, db, reqs, sectors)
  {
    var groups := Groups(db, reqs, issues, sectors);
    GroupsAreValid(db, reqs, issues, sectors);
    GroupsAreOf(db, reqs, issues, sectors);
    ResultCount(db, groups.keys, groups.vals, includeOptional);
    var results := BuildRegulations(db, groups.keys, groups.vals, includeOptional).0;
    forall i | 0 <= i < |results|
      ensures results[i].regulationId == groups.keys[i]
      ensures Describes(results[i], db) && HasRow(reqs, db, sectors, results[i].regulationId)
    {
      var k := groups.keys[i];
      assert k in groups.keys;
      ResultAt(db, groups.keys, groups.vals, includeOptional, i);
      assert Joined(db, groups.vals[k].rep);
    }
    forall q | q in reqs && Passes(db, q, sectors)
      ensures HasResult(results, q.regulationId)
    {
      var i :| 0 <= i < |groups.keys| && groups.keys[i] == q.regulationId;
      assert results[i] in results;
    }
  }

  lemma {:induction false} SelectedRows(db: Db, rows: seq<RequirementRow>, ids: set<Id>, criteria: set<string>, orgId: Option<string>)
    ensures forall q :: q in SelectRows(db, rows, ids, criteria, orgId)
                   <==> exists row :: row in rows && RowSelected(db, row, ids, criteria, orgId) && q == Join(db, row)
  {
    if rows != [] {
      SelectedRows(db, rows[..|rows|-1], ids, criteria, orgId);
      assert forall row :: row in rows <==> row in rows[..|rows|-1] || row == rows[|rows|-1] by {
        forall row { InFrontOrLast(rows, row); }
      }
    }
  }

  /** A stored row is within reach of a jurisdiction's part of the request: its regulation is at home there, the request may
      see it, some issue can be meant, and the regulation passes the sector filter. */
  ghost predicate Concerns(row: RequirementRow, db: Db, request: Request, parse: CodeParser, id: Id) {
    && row.regulationId in db.regulations
    && db.regulations[row.regulationId].jurisdictionId in Closure(db.jurisdictions, {id})
    && (request.orgId == None || row.orgId == "system" || Some(row.orgId) == request.orgId)
    && (exists code :: code in request.codes && parse(code).Some? && (row.wcagCriterion == "*" || row.wcagCriterion == parse(code).value.criterion))
    && (request.sectors == [] || exists s :: s in request.sectors && s in db.regulations[row.regulationId].sectors)
  }

  /** The same by way of the query. */
  lemma ConcernsIsSelected(row: RequirementRow, db: Db, request: Request, parse: CodeParser, id: Id)
    ensures var issues := ParseIssues(parse, request.codes);
      Concerns(row, db, request, parse, id)
      <==> Criteria(issues) != {} && RowSelected(db, row, Closure(db.jurisdictions, {id}), Criteria(issues), request.orgId)
           && RegulationMatchesSectors(db.regulations[row.regulationId].sectors, request.sectors)
  {
    var issues := ParseIssues(parse, request.codes);
    if code :| code in request.codes && parse(code).Some? && (row.wcagCriterion == "*" || row.wcagCriterion == parse(code).value.criterion) {
      CriterionIsParsed(parse, request.codes, parse(code).value.criterion);
    }
    if Criteria(issues) != {} && (row.wcagCriterion == "*" || row.wcagCriterion in Criteria(issues)) {
      var criterion :| criterion in Criteria(issues) && (row.wcagCriterion == "*" || row.wcagCriterion == criterion);
      CriterionIsParsed(parse, request.codes, criterion);
    }
  }

  lemma CriterionIsParsed(parse: CodeParser, codes: seq<string>, criterion: string)
    ensures criterion in Criteria(ParseIssues(parse, codes))
       <==> exists code :: code in codes && parse(code).Some? && parse(code).value.criterion == criterion
  {
    var issues := ParseIssues(parse, codes);
    if p :| p in issues && p.criterion == Some(criterion) {
      var i :| 0 <= i < |issues| && issues[i] == p;
      assert codes[i] in codes;
    }
    if code :| code in codes && parse(code).Some? && parse(code).value.criterion == criterion {
      var i :| 0 <= i < |codes| && codes[i] == code;
      assert issues[i] in issues;
    }
  }

  /** A matrix entry describes, once each and as the regulation table does, exactly the regulations with a row
      that concerns its jurisdiction. */
  lemma EntryDescribes(parse: CodeParser, request: Request, db: Db, response: Response, id: Id, regulationId: string)
    requires Answers(response, parse, request, db) && id in request.jurisdictions
    ensures id in response.matrix.vals <==> id != PROTO
    ensures id in response.matrix.vals ==> var results := response.matrix.vals[id].regulations;
      && (forall i, j :: 0 <= i < j < |results| ==> results[i].regulationId != results[j].regulationId)
      && (forall r :: r in results ==> Describes(r, db))
      && (HasResult(results, regulationId)
          <==> exists row :: row in db.requirements && row.regulationId == regulationId
                             && Concerns(row, db, request, parse, id))
  {
    var issues := ParseIssues(parse, request.codes);
    MatrixAt(db, request, issues, request.jurisdictions, id);
    EntryIsLocal(db, request, issues, id);
    var reqs := FindRequirements(db, Closure(db.jurisdictions, {id}), Criteria(issues), request.orgId);
    QueriedRowsConcern(db, request, parse, id, regulationId);
    EntryResults(db, id, reqs, issues, request.sectors, request.includeOptional);
    ResultsOfOne(EntryOf(db, request, issues, id).regulations, db, reqs, request.sectors, regulationId);
  }

  lemma ResultsOfOne(results: seq<RegulationResult>, db: Db, reqs: seq<Requirement>, sectors: seq<string>, regulationId: string)
    requires ResultsOf(results, db, reqs, sectors)
    ensures HasResult(results, regulationId) <==> HasRow(reqs, db, sectors, regulationId)
  {
  }

  lemma QueriedRowsConcern(db: Db, request: Request, parse: CodeParser, id: Id, regulationId: string)
    ensures var issues := ParseIssues(parse, request.codes); var reqs := FindRequirements(db, Closure(db.jurisdictions, {id}), Criteria(issues), request.orgId);
      && (forall q :: q in reqs ==> Joined(db, q))
      && (HasRow(reqs, db, request.sectors, regulationId)
          <==> exists row :: row in db.requirements && row.regulationId == regulationId && Concerns(row, db, request, parse, id))
  {
    var hierIds, issues := Closure(db.jurisdictions, {id}), ParseIssues(parse, request.codes);
    var reqs := FindRequirements(db, hierIds, Criteria(issues), request.orgId);
    forall row { ConcernsIsSelected(row, db, request, parse, id); }
    SelectedRows(db, db.requirements, hierIds, Criteria(issues), request.orgId);
    if row :| row in db.requirements && row.regulationId == regulationId && Concerns(row, db, request, parse, id) {
      assert hierIds != {};
      assert Join(db, row) in reqs;
    }
  }

  // ---- Each violation is listed once -----------------------------------------------------------

  /** Every listed violation has issues, and no (criterion, obligation) is listed twice. */
  ghost predicate ListedOnce(listed: seq<Violation>) {
    && (forall i :: 0 <= i < |listed| ==> listed[i].issueCount > 0)
    && (forall i, j :: 0 <= i < j < |listed| ==> !SameViolation(listed[i], listed[j]))
  }

  predicate SameViolation(v: Violation, w: Violation) {
    v.wcagCriterion == w.wcagCriterion && v.obligation == w.obligation
  }

  function KeyOf(v: Violation): string {
    Key(v.wcagCriterion, v.obligation)
  }

  /** Keys that reading and writing again gives back, each counting something. */
  ghost predicate WellKeyed(counts: OMap<string, nat>) {
    && counts.Valid()
    && forall key :: key in counts.vals ==> counts.vals[key] > 0 && Key(DecodeKey(key).0, DecodeKey(key).1) == key
  }

  lemma {:induction false} TallyWellKeyed(counts: OMap<string, nat>, req: Requirement, issues: seq<ParsedIssue>)
    requires WellKeyed(counts)
    ensures WellKeyed(Tally(counts, req, issues))
  {
    if issues != [] {
      TallyWellKeyed(counts, req, issues[..|issues|-1]);
      if Hits(req, issues[|issues|-1]) {
        ObligationTexts(req.obligation, req.obligation);
        DecodeInvertsKey(issues[|issues|-1].criterion.value, Text(req.obligation));
      }
    }
  }

  lemma {:induction false} GroupsWellKeyed(db: Db, reqs: seq<Requirement>, issues: seq<ParsedIssue>, sectors: seq<string>)
    ensures forall id :: id in Groups(db, reqs, issues, sectors).vals ==> WellKeyed(Groups(db, reqs, issues, sectors).vals[id].violations)
  {
    if reqs != [] {
      var before, req := Groups(db, reqs[..|reqs|-1], issues, sectors), reqs[|reqs|-1];
      GroupsWellKeyed(db, reqs[..|reqs|-1], issues, sectors);
      var group := if req.regulationId in before.vals then before.vals[req.regulationId] else Group(req, Empty());
      TallyWellKeyed(group.violations, req, issues);
    }
  }

  lemma {:induction false} BuildListsOnce(keys: seq<string>, counts: map<string, nat>, includeOptional: bool)
    requires Distinct(keys)
    requires forall key :: key in keys ==> key in counts && counts[key] > 0 && Key(DecodeKey(key).0, DecodeKey(key).1) == key
    ensures var built := BuildViolations(keys, counts, includeOptional).0;
      ListedOnce(built) && forall i :: 0 <= i < |built| ==> KeyOf(built[i]) in keys
  {
    if keys != [] {
      var front, key := keys[..|keys|-1], keys[|keys|-1];
      BuildListsOnce(front, counts, includeOptional);
      var built := BuildViolations(front, counts, includeOptional).0;
      assert key !in front;
      forall i | 0 <= i < |built| ensures KeyOf(built[i]) != key { assert KeyOf(built[i]) in front; }
    }
  }

  lemma EntryListsOnce(db: Db, id: Id, reqs: seq<Requirement>, issues: seq<ParsedIssue>, sectors: seq<string>, includeOptional: bool)
    ensures forall r :: r in JurisdictionEntry(db, id, reqs, issues, sectors, includeOptional).regulations ==> ListedOnce(r.violations)
  {
    var groups := Groups(db, reqs, issues, sectors);
    GroupsAreValid(db, reqs, issues, sectors);
    GroupsWellKeyed(db, reqs, issues, sectors);
    ResultCount(db, groups.keys, groups.vals, includeOptional);
    var results := BuildRegulations(db, groups.keys, groups.vals, includeOptional).0;
    forall i | 0 <= i < |results|
      ensures ListedOnce(results[i].violations)
    {
      assert groups.keys[i] in groups.keys;
      var counts := groups.vals[groups.keys[i]].violations;
      BuildListsOnce(counts.keys, counts.vals, includeOptional);
      ResultAt(db, groups.keys, groups.vals, includeOptional, i);
    }
  }

  ghost predicate AllPositive(m: OMap<string, Violation>) {
    forall k :: k in m.vals ==> m.vals[k].issueCount > 0
  }

  lemma {:induction false} TallyRowPositive(t: RegulationTally, req: Requirement, issues: seq<ParsedIssue>, includeOptional: bool)
    requires AllPositive(t.violations)
    ensures AllPositive(TallyRow(t, req, issues, includeOptional).violations)
  {
    if issues != [] {
      TallyRowPositive(t, req, issues[..|issues|-1], includeOptional);
    }
  }

  lemma {:induction false} TallyRowsPositive(reqs: seq<Requirement>, issues: seq<ParsedIssue>, includeOptional: bool)
    ensures AllPositive(TallyRows(reqs, issues, includeOptional).violations)
  {
    if reqs != [] {
      TallyRowsPositive(reqs[..|reqs|-1], issues, includeOptional);
      TallyRowPositive(TallyRows(reqs[..|reqs|-1], issues, includeOptional), reqs[|reqs|-1], issues, includeOptional);
    }
  }

  lemma {:induction false} ValuesInOrder(keys: seq<string>, vals: map<string, Violation>)
    requires forall k :: k in keys ==> k in vals
    ensures |ValuesOf(keys, vals)| == |keys|
    ensures forall i :: 0 <= i < |keys| ==> ValuesOf(keys, vals)[i] == vals[keys[i]]
  {
    if keys != [] {
      ValuesInOrder(keys[..|keys|-1], vals);
    }
  }

  lemma ViewListsOnce(regulationId: string, reg: Regulation, reqs: seq<Requirement>, issues: seq<ParsedIssue>, includeOptional: bool)
    ensures ListedOnce(RegulationView(regulationId, reg, reqs, issues, includeOptional).violatedRequirements)
  {
    var m := TallyRows(reqs, issues, includeOptional).violations;
    TallyRowsKeepContent(reqs, issues, includeOptional);
    TallyRowsPositive(reqs, issues, includeOptional);
    ValuesInOrder(m.keys, m.vals);
    forall i | 0 <= i < |m.keys|
      ensures m.vals[m.keys[i]].issueCount > 0 && KeyOf(m.vals[m.keys[i]]) == m.keys[i]
    {
      assert m.keys[i] in m.keys;
    }
  }

  /** Neither matrix lists a violation twice or without an issue. */
  lemma ViolationsListedOnce(parse: CodeParser, request: Request, db: Db, response: Response)
    requires Answers(response, parse, request, db)
    ensures forall id, r :: id in response.matrix.vals && r in response.matrix.vals[id].regulations ==> ListedOnce(r.violations)
    ensures forall x :: x in response.regulationMatrix.vals ==> ListedOnce(response.regulationMatrix.vals[x].violatedRequirements)
  {
    var issues := ParseIssues(parse, request.codes);
    forall id, r | id in response.matrix.vals && r in response.matrix.vals[id].regulations
      ensures ListedOnce(r.violations)
    {
      MatrixAt(db, request, issues, request.jurisdictions, id);
      EntryListsOnce(db, id, InHierarchy(QueriedRows(db, request, issues), Closure(db.jurisdictions, {id})), issues,
                     request.sectors, request.includeOptional);
    }
    forall x | x in response.regulationMatrix.vals
      ensures ListedOnce(response.regulationMatrix.vals[x].violatedRequirements)
    {
      RegulationMatrixAt(db, request, issues, request.regulations, x);
      ViewListsOnce(x, db.regulations[x], KeepRegulations(QueriedRows(db, request, issues), {x}), issues, request.includeOptional);
    }
  }

  // ---- The verdict of the regulation matrix ------------------------------------------------------

  /** A named, known regulation fails on a mandatory pair, is partial on other visible pairs only, and passes on none. */
  lemma RegulationStatus(parse: CodeParser, request: Request, db: Db, response: Response, regulationId: string)
    requires Answers(response, parse, request, db)
    ensures regulationId in response.regulationMatrix.vals <==> regulationId in request.regulations && regulationId in db.regulations && regulationId != PROTO
    ensures regulationId in response.regulationMatrix.vals ==>
      var issues := ParseIssues(parse, request.codes);
      var pairs := o => Count(db, OfObligation(o, regulationId), QueriedRows(db, request, issues), issues);
      && (response.regulationMatrix.vals[regulationId].status == Fail <==> pairs(Mandatory) > 0)
      && (response.regulationMatrix.vals[regulationId].status == Pass <==>
           pairs(Mandatory) == 0 && pairs(Recommended) == 0 && (request.includeOptional ==> pairs(Optional) == 0))
  {
    var issues := ParseIssues(parse, request.codes);
    var rows := QueriedRows(db, request, issues);
    RegulationMatrixAt(db, request, issues, request.regulations, regulationId);
    RegulationViewTotals(db, rows, issues, request.includeOptional, regulationId, Mandatory);
    RegulationViewTotals(db, rows, issues, request.includeOptional, regulationId, Recommended);
    RegulationViewTotals(db, rows, issues, request.includeOptional, regulationId, Optional);
  }
}
