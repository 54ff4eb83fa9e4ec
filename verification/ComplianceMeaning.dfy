/** What a compliance response says, in terms of the stored rows and the fields of the request alone. */
module ComplianceMeaning {
  import opened Common
  import opened Jurisdictions
  import opened Compliance
  import opened ComplianceViews

  // ---- The reference: stored rows and issue codes ------------------------------------------------

  /** An issue code violates a stored row that the request can see. */
  ghost predicate Violates(db: Db, parse: CodeParser, request: Request, row: RequirementRow, code: string) {
    && row.regulationId in db.regulations
    && (request.orgId == None || row.orgId == "system" || Some(row.orgId) == request.orgId)
    && (request.sectors == [] || exists s :: s in request.sectors && s in db.regulations[row.regulationId].sectors)
    && parse(code).Some?
    && (row.wcagCriterion == "*" || row.wcagCriterion == parse(code).value.criterion)
  }

  type Test = (RequirementRow, string) -> bool

  /** The codes of a list that pass a test with one row. */
  function CountCodes(row: RequirementRow, codes: seq<string>, test: Test): nat {
    if codes == [] then 0 else
    CountCodes(row, codes[..|codes|-1], test) + if test(row, codes[|codes|-1]) then 1 else 0
  }

  /** The number of (row, code) pairs that pass a test. */
  function CountPairs(rows: seq<RequirementRow>, codes: seq<string>, test: Test): nat {
    if rows == [] then 0 else
    CountPairs(rows[..|rows|-1], codes, test) + CountCodes(rows[|rows|-1], codes, test)
  }

  /** Which violations to count: those at home in `ids` under an obligation, of one regulation or criterion if given. */
  ghost predicate Asked(db: Db, parse: CodeParser, request: Request, ids: set<Id>, o: Obligation, regulation: Option<string>,
                        criterion: Option<string>, row: RequirementRow, code: string) {
    && Violates(db, parse, request, row, code)
    && db.regulations[row.regulationId].jurisdictionId in ids
    && row.obligation == o
    && (regulation == None || regulation == Some(row.regulationId))
    && (criterion == None || criterion == Some(parse(code).value.criterion))
  }

  ghost function AskedTest(db: Db, parse: CodeParser, request: Request, ids: set<Id>, o: Obligation, regulation: Option<string>,
                           criterion: Option<string>): Test {
    (row: RequirementRow, code: string) => Asked(db, parse, request, ids, o, regulation, criterion, row, code)
  }

  ghost function Pairs(db: Db, parse: CodeParser, request: Request, ids: set<Id>, o: Obligation, regulation: Option<string>,
                       criterion: Option<string>): nat {
    CountPairs(db.requirements, request.codes, AskedTest(db, parse, request, ids, o, regulation, criterion))
  }

  /** The requested jurisdictions, the homes of the named regulations, and all their ancestors. */
  ghost function Reached(db: Db, request: Request): set<Id> {
    Closure(db.jurisdictions, (set id | id in request.jurisdictions)
                              + (set r | r in request.regulations && r in db.regulations :: db.regulations[r].jurisdictionId))
  }

  function NameOfObligation(o: Obligation): string {
    match o
    case Mandatory => "mandatory"
    case Recommended => "recommended"
    case Optional => "optional"
    case Excluded => "excluded"
  }

  // ---- Counting queried rows is counting stored rows ---------------------------------------------

  lemma IssuesSnoc(parse: CodeParser, codes: seq<string>)
    requires codes != []
    ensures ParseIssues(parse, codes)[..|codes|-1] == ParseIssues(parse, codes[..|codes|-1])
  {
  }

  ghost predicate RowTested(db: Db, parse: CodeParser, sel: Selector, row: RequirementRow, codes: seq<string>, test: Test) {
    forall i :: 0 <= i < |codes| ==>
      (test(row, codes[i]) <==> row.regulationId in db.regulations && Picks(db, sel, Join(db, row), ParseIssues(parse, codes)[i]))
  }

  lemma {:induction false} CodesCount(db: Db, parse: CodeParser, sel: Selector, row: RequirementRow, codes: seq<string>, test: Test)
    requires row.regulationId in db.regulations && RowTested(db, parse, sel, row, codes, test)
    ensures ComplianceViews.CountRow(db, sel, Join(db, row), ParseIssues(parse, codes)) == CountCodes(row, codes, test)
  {
    if codes != [] {
      var front := codes[..|codes|-1];
      IssuesSnoc(parse, codes);
      forall i | 0 <= i < |front| ensures ParseIssues(parse, front)[i] == ParseIssues(parse, codes)[i] && front[i] == codes[i] {}
      CodesCount(db, parse, sel, row, front, test);
    }
  }

  lemma {:induction false} NoCodes(row: RequirementRow, codes: seq<string>, test: Test)
    requires forall i :: 0 <= i < |codes| ==> !test(row, codes[i])
    ensures CountCodes(row, codes, test) == 0
  {
    if codes != [] {
      NoCodes(row, codes[..|codes|-1], test);
    }
  }

  /** The queried rows count what the stored rows count. */
  ghost predicate QueryCounts(db: Db, parse: CodeParser, sel: Selector, rows: seq<RequirementRow>, ids: set<Id>, criteria: set<string>,
                              orgId: Option<string>, codes: seq<string>, test: Test) {
    Count(db, sel, SelectRows(db, rows, ids, criteria, orgId), ParseIssues(parse, codes)) == CountPairs(rows, codes, test)
  }

  /** How a test on a stored row and a code relates to query and selector. */
  ghost predicate Fits(db: Db, parse: CodeParser, sel: Selector, ids: set<Id>, criteria: set<string>, orgId: Option<string>,
                       codes: seq<string>, test: Test, row: RequirementRow) {
    if RowSelected(db, row, ids, criteria, orgId) then RowTested(db, parse, sel, row, codes, test)
    else forall i :: 0 <= i < |codes| ==> !test(row, codes[i])
  }

  lemma QueryCountsStep(db: Db, parse: CodeParser, sel: Selector, rows: seq<RequirementRow>, row: RequirementRow, ids: set<Id>,
                        criteria: set<string>, orgId: Option<string>, codes: seq<string>, test: Test)
    requires QueryCounts(db, parse, sel, rows, ids, criteria, orgId, codes, test)
    requires Fits(db, parse, sel, ids, criteria, orgId, codes, test, row)
    ensures QueryCounts(db, parse, sel, rows + [row], ids, criteria, orgId, codes, test)
  {
    var found := SelectRows(db, rows, ids, criteria, orgId);
    assert (rows + [row])[..|rows|] == rows;
    if RowSelected(db, row, ids, criteria, orgId) {
      CountSnoc(db, sel, found, Join(db, row), ParseIssues(parse, codes));
      CodesCount(db, parse, sel, row, codes, test);
    } else {
      NoCodes(row, codes, test);
    }
  }

  lemma {:induction false} CountsQuery(db: Db, parse: CodeParser, sel: Selector, rows: seq<RequirementRow>, ids: set<Id>,
                                       criteria: set<string>, orgId: Option<string>, codes: seq<string>, test: Test)
    requires forall row :: row in rows ==> Fits(db, parse, sel, ids, criteria, orgId, codes, test, row)
    ensures QueryCounts(db, parse, sel, rows, ids, criteria, orgId, codes, test)
  {
    if rows != [] {
      var front, row := rows[..|rows|-1], rows[|rows|-1];
      assert front + [row] == rows;
      CountsQuery(db, parse, sel, front, ids, criteria, orgId, codes, test);
      QueryCountsStep(db, parse, sel, front, row, ids, criteria, orgId, codes, test);
    }
  }

  lemma IssueAt(parse: CodeParser, codes: seq<string>, i: nat)
    requires i < |codes|
    ensures var parsed := ParseIssues(parse, codes)[i];
      && parsed in ParseIssues(parse, codes) && parsed.code == codes[i]
      && (parsed.criterion.Some? <==> parse(codes[i]).Some?)
      && (parse(codes[i]).Some? ==> parsed.criterion == Some(parse(codes[i]).value.criterion)
                                    && parsed.criterion.value in Criteria(ParseIssues(parse, codes)))
  {
    assert ParseIssues(parse, codes)[i] in ParseIssues(parse, codes);
  }

  lemma AskedFits(db: Db, parse: CodeParser, request: Request, ids: set<Id>, o: Obligation, regulation: Option<string>,
                  criterion: Option<string>, row: RequirementRow)
    ensures var sel := Selector(o, regulation, criterion, request.sectors, None);
      Fits(db, parse, sel, ids, Criteria(ParseIssues(parse, request.codes)), request.orgId, request.codes,
           AskedTest(db, parse, request, ids, o, regulation, criterion), row)
  {
    forall i | 0 <= i < |request.codes| { IssueAt(parse, request.codes, i); }
  }

  /** Counting what a jurisdiction set is queried for is counting pairs of stored rows and codes. */
  lemma CountIsPairs(db: Db, parse: CodeParser, request: Request, ids: set<Id>, o: Obligation, regulation: Option<string>,
                     criterion: Option<string>)
    ensures var issues := ParseIssues(parse, request.codes);
      Count(db, Selector(o, regulation, criterion, request.sectors, None),
            FindRequirements(db, ids, Criteria(issues), request.orgId), issues)
      == Pairs(db, parse, request, ids, o, regulation, criterion)
  {
    var issues := ParseIssues(parse, request.codes);
    var sel, test := Selector(o, regulation, criterion, request.sectors, None), AskedTest(db, parse, request, ids, o, regulation, criterion);
    if Criteria(issues) == {} || ids == {} {
      NothingAsked(db, parse, request, ids, o, regulation, criterion, db.requirements);
    } else {
      forall row | row in db.requirements { AskedFits(db, parse, request, ids, o, regulation, criterion, row); }
      CountsQuery(db, parse, sel, db.requirements, ids, Criteria(issues), request.orgId, request.codes, test);
    }
  }

  lemma {:induction false} NothingAsked(db: Db, parse: CodeParser, request: Request, ids: set<Id>, o: Obligation, regulation: Option<string>,
                                        criterion: Option<string>, rows: seq<RequirementRow>)
    requires Criteria(ParseIssues(parse, request.codes)) == {} || ids == {}
    ensures CountPairs(rows, request.codes, AskedTest(db, parse, request, ids, o, regulation, criterion)) == 0
  {
    if rows != [] {
      NothingAsked(db, parse, request, ids, o, regulation, criterion, rows[..|rows|-1]);
      forall i | 0 <= i < |request.codes| { IssueAt(parse, request.codes, i); }
      NoCodes(rows[|rows|-1], request.codes, AskedTest(db, parse, request, ids, o, regulation, criterion));
    }
  }

  lemma {:induction false} SameCodes(row: RequirementRow, codes: seq<string>, a: Test, b: Test)
    requires forall i :: 0 <= i < |codes| ==> a(row, codes[i]) == b(row, codes[i])
    ensures CountCodes(row, codes, a) == CountCodes(row, codes, b)
  {
    if codes != [] {
      SameCodes(row, codes[..|codes|-1], a, b);
    }
  }

  lemma {:induction false} SamePairs(rows: seq<RequirementRow>, codes: seq<string>, a: Test, b: Test)
    requires forall row, i :: row in rows && 0 <= i < |codes| ==> a(row, codes[i]) == b(row, codes[i])
    ensures CountPairs(rows, codes, a) == CountPairs(rows, codes, b)
  {
    if rows != [] {
      var front, last := rows[..|rows|-1], rows[|rows|-1];
      forall row, i | row in front && 0 <= i < |codes| ensures a(row, codes[i]) == b(row, codes[i]) { InFrontOrLast(rows, row); }
      SamePairs(front, codes, a, b);
      assert last in rows;
      SameCodes(last, codes, a, b);
    }
  }

  // ---- The jurisdiction matrix ---------------------------------------------------------------------

  /** The entry of a jurisdiction: its name, and the violations of rows at home in its own hierarchy. */
  lemma MatrixMeans(parse: CodeParser, request: Request, db: Db, response: Response, id: Id)
    requires Answers(response, parse, request, db)
    ensures id in response.matrix.vals <==> id in request.jurisdictions && id != "__proto__"
    ensures id in response.matrix.vals ==>
      var entry := response.matrix.vals[id];
      var pairs := (o: Obligation) => Pairs(db, parse, request, Closure(db.jurisdictions, {id}), o, None, None);
      && entry.jurisdictionId == id
      && entry.jurisdictionName == (if id in db.jurisdictions then db.jurisdictions[id].name else id)
      && entry.mandatoryViolations == pairs(Mandatory)
      && entry.recommendedViolations == pairs(Recommended)
      && entry.optionalViolations == (if request.includeOptional then pairs(Optional) else 0) + pairs(Excluded)
      && entry.status == if pairs(Mandatory) > 0 then Fail else Pass
  {
    var issues, hierIds := ParseIssues(parse, request.codes), Closure(db.jurisdictions, {id});
    MatrixAt(db, request, issues, request.jurisdictions, id);
    if id in response.matrix.vals {
      EntryIsLocal(db, request, issues, id);
      JurisdictionTotals(db, id, FindRequirements(db, hierIds, Criteria(issues), request.orgId), issues, request.sectors, request.includeOptional);
      forall o { CountIsPairs(db, parse, request, hierIds, o, None, None); }
    }
  }

  /** What the entry lists for a regulation, a criterion and an obligation. */
  lemma MatrixListsMean(parse: CodeParser, request: Request, db: Db, response: Response, id: Id, regulationId: string, criterion: string, o: Obligation)
    requires Answers(response, parse, request, db) && id in response.matrix.vals
    ensures ListedFor(response.matrix.vals[id].regulations, regulationId, criterion, NameOfObligation(o))
         == if o == Optional && !request.includeOptional then 0
            else Pairs(db, parse, request, Closure(db.jurisdictions, {id}), o, Some(regulationId), Some(criterion))
  {
    var issues, hierIds := ParseIssues(parse, request.codes), Closure(db.jurisdictions, {id});
    MatrixAt(db, request, issues, request.jurisdictions, id);
    EntryIsLocal(db, request, issues, id);
    JurisdictionLists(db, id, FindRequirements(db, hierIds, Criteria(issues), request.orgId), issues, request.sectors,
                      request.includeOptional, regulationId, criterion, o);
    CountIsPairs(db, parse, request, hierIds, o, Some(regulationId), Some(criterion));
    assert Text(o) == NameOfObligation(o);
    ObligationTexts(o, Optional);
  }

  // ---- The regulation matrix -----------------------------------------------------------------------

  /** The violations of one regulation's rows, wherever it is at home and whatever the sector filter. */
  ghost function RegulationPairs(db: Db, parse: CodeParser, request: Request, o: Obligation, regulationId: string, criterion: Option<string>): nat {
    CountPairs(db.requirements, request.codes, RegulationTest(db, parse, request, o, regulationId, criterion))
  }

  ghost function RegulationTest(db: Db, parse: CodeParser, request: Request, o: Obligation, regulationId: string, criterion: Option<string>): Test {
    (row: RequirementRow, code: string) =>
      && row.regulationId == regulationId && row.obligation == o
      && Violates(db, parse, request.(sectors := []), row, code)
      && (criterion == None || criterion == Some(parse(code).value.criterion))
  }

  /** The query reaches every row of a named regulation. */
  lemma NamedIsReached(db: Db, parse: CodeParser, request: Request, o: Obligation, regulationId: string, criterion: Option<string>)
    requires regulationId in request.regulations && regulationId in db.regulations
    ensures var issues := ParseIssues(parse, request.codes);
      Count(db, Selector(o, Some(regulationId), criterion, [], None), QueriedRows(db, request, issues), issues)
      == RegulationPairs(db, parse, request, o, regulationId, criterion)
  {
    var open := request.(sectors := []);
    var home := db.regulations[regulationId].jurisdictionId;
    assert home in Homes(db, request.regulations);
    assert home in Widened(db, request);
    CountIsPairs(db, parse, open, Widened(db, request), o, Some(regulationId), criterion);
    SamePairs(db.requirements, request.codes, AskedTest(db, parse, open, Widened(db, request), o, Some(regulationId), criterion),
              RegulationTest(db, parse, request, o, regulationId, criterion));
  }

  lemma ViewTotalsMean(db: Db, parse: CodeParser, request: Request, id: string, o: Obligation)
    requires id in request.regulations && id in db.regulations
    ensures var issues := ParseIssues(parse, request.codes);
      TotalOf(TallyRows(KeepRegulations(QueriedRows(db, request, issues), {id}), issues, request.includeOptional).totals, o)
      == if o == Excluded || (o == Optional && !request.includeOptional) then 0 else RegulationPairs(db, parse, request, o, id, None)
  {
    var issues := ParseIssues(parse, request.codes);
    RegulationViewTotals(db, QueriedRows(db, request, issues), issues, request.includeOptional, id, o);
    NamedIsReached(db, parse, request, o, id, None);
  }

  /** What the entry of a named regulation says, with its numbers of violations per obligation. */
  ghost predicate EntryCounts(entry: RegulationEntry, reg: Regulation, id: string, mandatory: nat, recommended: nat, optional: nat) {
    && entry.regulationId == id && entry.regulationName == reg.name && entry.shortName == reg.shortName
    && entry.jurisdictionId == reg.jurisdictionId
    && entry.mandatoryViolations == mandatory && entry.recommendedViolations == recommended && entry.optionalViolations == optional
    && entry.status == if mandatory > 0 then Fail else if recommended > 0 || optional > 0 then Partial else Pass
  }

  /** The entry of a named regulation: what the regulation table says of it, and the violations of its rows. */
  lemma RegulationMatrixMeans(parse: CodeParser, request: Request, db: Db, response: Response, id: string)
    requires Answers(response, parse, request, db)
    ensures id in response.regulationMatrix.vals <==> id in request.regulations && id in db.regulations && id != "__proto__"
    ensures id in response.regulationMatrix.vals ==>
      EntryCounts(response.regulationMatrix.vals[id], db.regulations[id], id,
                  RegulationPairs(db, parse, request, Mandatory, id, None), RegulationPairs(db, parse, request, Recommended, id, None),
                  if request.includeOptional then RegulationPairs(db, parse, request, Optional, id, None) else 0)
  {
    RegulationMatrixAt(db, request, ParseIssues(parse, request.codes), request.regulations, id);
    if id in response.regulationMatrix.vals {
      ViewTotalsMean(db, parse, request, id, Mandatory);
      ViewTotalsMean(db, parse, request, id, Recommended);
      ViewTotalsMean(db, parse, request, id, Optional);
    }
  }

  lemma RegulationListsMean(parse: CodeParser, request: Request, db: Db, response: Response, id: string, criterion: string, o: Obligation)
    requires Answers(response, parse, request, db) && id in response.regulationMatrix.vals
    ensures Listed(response.regulationMatrix.vals[id].violatedRequirements, criterion, NameOfObligation(o))
         == if o == Excluded || (o == Optional && !request.includeOptional) then 0
            else RegulationPairs(db, parse, request, o, id, Some(criterion))
  {
    var issues := ParseIssues(parse, request.codes);
    RegulationMatrixAt(db, request, issues, request.regulations, id);
    RegulationSideLists(db, request, issues, id, criterion, o);
    NamedIsReached(db, parse, request, o, id, Some(criterion));
    assert Text(o) == NameOfObligation(o);
  }

  // ---- The annotated issues ------------------------------------------------------------------------

  /** A stored row that the annotation of a code carries. */
  ghost predicate Carried(db: Db, parse: CodeParser, request: Request, row: RequirementRow, code: string) {
    && Violates(db, parse, request, row, code)
    && db.regulations[row.regulationId].jurisdictionId in Reached(db, request)
    && (request.regulations == [] || row.regulationId in request.regulations)
  }

  ghost function CarriedRows(db: Db, parse: CodeParser, request: Request, rows: seq<RequirementRow>, code: string): seq<RequirementRow> {
    if rows == [] then [] else
    var before, row := CarriedRows(db, parse, request, rows[..|rows|-1], code), rows[|rows|-1];
    if Carried(db, parse, request, row, code) then before + [row] else before
  }

  /** A stored row as it is shown, with what the regulation table says of its regulation. */
  ghost predicate Shows(q: Requirement, db: Db, row: RequirementRow) {
    && row.regulationId in db.regulations && q.regulationId == row.regulationId
    && q.wcagCriterion == row.wcagCriterion && q.obligation == row.obligation
    && var reg := db.regulations[row.regulationId];
      && q.regulationName == reg.name && q.regulationShortName == reg.shortName
      && q.jurisdictionId == reg.jurisdictionId && q.enforcementDate == reg.enforcementDate
  }

  ghost predicate ShowsAll(regs: seq<Requirement>, db: Db, rows: seq<RequirementRow>) {
    |regs| == |rows| && forall k :: 0 <= k < |rows| ==> Shows(regs[k], db, rows[k])
  }

  /** What the pipeline of query, matching and filtering by name leaves of the stored rows. */
  ghost function Scoped(db: Db, request: Request, parsed: ParsedIssue, rows: seq<RequirementRow>, ids: set<Id>, criteria: set<string>): seq<Requirement> {
    var matching := FindMatching(db, parsed, SelectRows(db, rows, ids, criteria, request.orgId), request.sectors);
    if request.regulations != [] then KeepRegulations(matching, Elements(request.regulations)) else matching
  }

  lemma ScopedSnoc(db: Db, request: Request, parsed: ParsedIssue, rows: seq<RequirementRow>, row: RequirementRow, ids: set<Id>, criteria: set<string>)
    ensures Scoped(db, request, parsed, rows + [row], ids, criteria)
         == Scoped(db, request, parsed, rows, ids, criteria)
            + if RowSelected(db, row, ids, criteria, request.orgId) && Matches(db, parsed, Join(db, row), request.sectors)
                 && (request.regulations != [] ==> row.regulationId in Elements(request.regulations))
              then [Join(db, row)] else []
  {
    assert (rows + [row])[..|rows|] == rows;
    var found := SelectRows(db, rows, ids, criteria, request.orgId);
    if RowSelected(db, row, ids, criteria, request.orgId) {
      FindSnoc(db, parsed, found, Join(db, row), request.sectors);
      var matching := FindMatching(db, parsed, found, request.sectors);
      assert (matching + [Join(db, row)])[..|matching|] == matching;
      assert matching + [] == matching;
    }
  }

  lemma CarriedIs(db: Db, parse: CodeParser, request: Request, row: RequirementRow, i: nat)
    requires i < |request.codes|
    ensures var issues := ParseIssues(parse, request.codes);
      Carried(db, parse, request, row, request.codes[i])
      <==> RowSelected(db, row, Widened(db, request), Criteria(issues), request.orgId)
           && Matches(db, issues[i], Join(db, row), request.sectors)
           && (request.regulations != [] ==> row.regulationId in Elements(request.regulations))
  {
    IssueAt(parse, request.codes, i);
    assert Elements(request.jurisdictions) == set id | id in request.jurisdictions;
    assert Reached(db, request) == Widened(db, request);
  }

  lemma {:induction false} ScopedShows(db: Db, parse: CodeParser, request: Request, rows: seq<RequirementRow>, i: nat)
    requires i < |request.codes|
    ensures var issues := ParseIssues(parse, request.codes);
      ShowsAll(Scoped(db, request, issues[i], rows, Widened(db, request), Criteria(issues)), db,
               CarriedRows(db, parse, request, rows, request.codes[i]))
  {
    if rows != [] {
      var front, row := rows[..|rows|-1], rows[|rows|-1];
      var issues := ParseIssues(parse, request.codes);
      assert front + [row] == rows;
      ScopedShows(db, parse, request, front, i);
      ScopedSnoc(db, request, issues[i], front, row, Widened(db, request), Criteria(issues));
      CarriedIs(db, parse, request, row, i);
    }
  }

  lemma {:induction false} NothingCarried(db: Db, parse: CodeParser, request: Request, rows: seq<RequirementRow>, i: nat)
    requires i < |request.codes|
    requires Criteria(ParseIssues(parse, request.codes)) == {} || Widened(db, request) == {}
    ensures CarriedRows(db, parse, request, rows, request.codes[i]) == []
  {
    if rows != [] {
      NothingCarried(db, parse, request, rows[..|rows|-1], i);
      IssueAt(parse, request.codes, i);
      CarriedIs(db, parse, request, rows[|rows|-1], i);
    }
  }

  /** Each issue is annotated, in table order, with exactly the stored rows that are within reach of the request, have its
      criterion or "*", pass the sector filter and belong to a named regulation if any is named. */
  lemma AnnotationMeans(parse: CodeParser, request: Request, db: Db, response: Response, i: nat)
    requires Answers(response, parse, request, db) && i < |request.codes|
    ensures |response.annotatedIssues| == |request.codes|
    ensures var annotated, code := response.annotatedIssues[i], request.codes[i];
      && annotated.code == code
      && annotated.wcagCriterion == (if parse(code).Some? then parse(code).value.criterion else code)
      && annotated.wcagLevel == (if parse(code).Some? then parse(code).value.level else "A")
      && ShowsAll(annotated.regulations, db, CarriedRows(db, parse, request, db.requirements, code))
  {
    var issues := ParseIssues(parse, request.codes);
    IssueAt(parse, request.codes, i);
    assert response.annotatedIssues[i] == Annotate(db, request, issues[i], QueriedRows(db, request, issues));
    if Criteria(issues) == {} || Widened(db, request) == {} {
      NothingCarried(db, parse, request, db.requirements, i);
    } else {
      ScopedShows(db, parse, request, db.requirements, i);
    }
  }

  lemma {:induction false} CarriedRowsAre(db: Db, parse: CodeParser, request: Request, rows: seq<RequirementRow>, code: string)
    ensures forall row :: row in CarriedRows(db, parse, request, rows, code) <==> row in rows && Carried(db, parse, request, row, code)
  {
    if rows != [] {
      CarriedRowsAre(db, parse, request, rows[..|rows|-1], code);
      forall row { InFrontOrLast(rows, row); }
    }
  }

  /** A row is annotated if and only if it is carried. */
  lemma AnnotatedIff(parse: CodeParser, request: Request, db: Db, response: Response, i: nat, q: Requirement)
    requires Answers(response, parse, request, db) && i < |request.codes|
    ensures |response.annotatedIssues| == |request.codes|
    ensures q in response.annotatedIssues[i].regulations
       <==> exists row :: row in db.requirements && Carried(db, parse, request, row, request.codes[i]) && Shows(q, db, row)
  {
    AnnotationMeans(parse, request, db, response, i);
    var rows := CarriedRows(db, parse, request, db.requirements, request.codes[i]);
    CarriedRowsAre(db, parse, request, db.requirements, request.codes[i]);
    var regs := response.annotatedIssues[i].regulations;
    if q in regs {
      var k :| 0 <= k < |regs| && regs[k] == q;
      assert rows[k] in rows;
    }
    if row :| row in db.requirements && Carried(db, parse, request, row, request.codes[i]) && Shows(q, db, row) {
      var k :| 0 <= k < |rows| && rows[k] == row;
      assert Shows(regs[k], db, rows[k]);
      assert regs[k] == q;
    }
  }

  // ---- Double counting with named regulations --------------------------------------------------------

  /** Annotations of an obligation at home in `ids`, of one regulation if given. */
  predicate Meant(q: Requirement, ids: set<Id>, o: Obligation, regulation: Option<string>) {
    q.obligation == o && q.jurisdictionId in ids && (regulation == None || regulation == Some(q.regulationId))
  }

  function Marks(regs: seq<Requirement>, ids: set<Id>, o: Obligation, regulation: Option<string>): nat {
    if regs == [] then 0 else
    Marks(regs[..|regs|-1], ids, o, regulation) + if Meant(regs[|regs|-1], ids, o, regulation) then 1 else 0
  }

  function AllMarks(annotated: seq<AnnotatedIssue>, ids: set<Id>, o: Obligation, regulation: Option<string>): nat {
    if annotated == [] then 0 else
    AllMarks(annotated[..|annotated|-1], ids, o, regulation) + Marks(annotated[|annotated|-1].regulations, ids, o, regulation)
  }

  ghost function MarkTest(db: Db, parse: CodeParser, request: Request, ids: set<Id>, o: Obligation, regulation: Option<string>): Test {
    (row: RequirementRow, code: string) =>
      && Carried(db, parse, request, row, code) && row.obligation == o
      && db.regulations[row.regulationId].jurisdictionId in ids && (regulation == None || regulation == Some(row.regulationId))
  }

  /** The rows of a list that pass a test with one code. */
  function CountRows(rows: seq<RequirementRow>, code: string, test: Test): nat {
    if rows == [] then 0 else
    CountRows(rows[..|rows|-1], code, test) + if test(rows[|rows|-1], code) then 1 else 0
  }

  lemma {:induction false} OneMoreCode(rows: seq<RequirementRow>, codes: seq<string>, code: string, test: Test)
    ensures CountPairs(rows, codes + [code], test) == CountPairs(rows, codes, test) + CountRows(rows, code, test)
  {
    if rows != [] {
      OneMoreCode(rows[..|rows|-1], codes, code, test);
      assert (codes + [code])[..|codes|] == codes;
    }
  }

  lemma {:induction false} NoPairs(rows: seq<RequirementRow>, test: Test)
    ensures CountPairs(rows, [], test) == 0
  {
    if rows != [] { NoPairs(rows[..|rows|-1], test); }
  }

  lemma MarksSnoc(regs: seq<Requirement>, q: Requirement, ids: set<Id>, o: Obligation, regulation: Option<string>)
    ensures Marks(regs + [q], ids, o, regulation) == Marks(regs, ids, o, regulation) + if Meant(q, ids, o, regulation) then 1 else 0
  {
    assert (regs + [q])[..|regs|] == regs;
  }

  lemma {:induction false} MarksCount(db: Db, parse: CodeParser, request: Request, regs: seq<Requirement>, rows: seq<RequirementRow>,
                                      code: string, ids: set<Id>, o: Obligation, regulation: Option<string>)
    requires ShowsAll(regs, db, CarriedRows(db, parse, request, rows, code))
    ensures Marks(regs, ids, o, regulation) == CountRows(rows, code, MarkTest(db, parse, request, ids, o, regulation))
  {
    if rows != [] {
      var front, row := rows[..|rows|-1], rows[|rows|-1];
      if Carried(db, parse, request, row, code) {
        var before, q := regs[..|regs|-1], regs[|regs|-1];
        MarksCount(db, parse, request, before, front, code, ids, o, regulation);
        assert regs == before + [q];
        MarksSnoc(before, q, ids, o, regulation);
      } else {
        MarksCount(db, parse, request, regs, front, code, ids, o, regulation);
      }
    }
  }

  lemma {:induction false} AllMarksCount(db: Db, parse: CodeParser, request: Request, annotated: seq<AnnotatedIssue>, codes: seq<string>,
                                         ids: set<Id>, o: Obligation, regulation: Option<string>)
    requires |annotated| == |codes|
    requires forall i :: 0 <= i < |codes| ==>
               ShowsAll(annotated[i].regulations, db, CarriedRows(db, parse, request, db.requirements, codes[i]))
    ensures AllMarks(annotated, ids, o, regulation) == CountPairs(db.requirements, codes, MarkTest(db, parse, request, ids, o, regulation))
  {
    var test := MarkTest(db, parse, request, ids, o, regulation);
    if codes == [] {
      NoPairs(db.requirements, test);
    } else {
      var front, code := codes[..|codes|-1], codes[|codes|-1];
      AllMarksCount(db, parse, request, annotated[..|annotated|-1], front, ids, o, regulation);
      MarksCount(db, parse, request, annotated[|annotated|-1].regulations, db.requirements, code, ids, o, regulation);
      assert front + [code] == codes;
      OneMoreCode(db.requirements, front, code, test);
    }
  }

  /** Double counting: over all issues, the annotations of an obligation at home in a jurisdiction set, of one regulation or of
      all, are the pairs of codes and carried rows. */
  lemma AnnotationsAddUp(parse: CodeParser, request: Request, db: Db, response: Response, ids: set<Id>, o: Obligation, regulation: Option<string>)
    requires Answers(response, parse, request, db)
    ensures AllMarks(response.annotatedIssues, ids, o, regulation)
         == CountPairs(db.requirements, request.codes, MarkTest(db, parse, request, ids, o, regulation))
  {
    forall i: nat | i < |request.codes|
      ensures ShowsAll(response.annotatedIssues[i].regulations, db, CarriedRows(db, parse, request, db.requirements, request.codes[i]))
    {
      AnnotationMeans(parse, request, db, response, i);
    }
    AllMarksCount(db, parse, request, response.annotatedIssues, request.codes, ids, o, regulation);
  }

  /** With named regulations: the annotations of one of them add up to its totals in the regulation matrix, unless the sector
      filter, which that matrix ignores, drops its annotations. */
  lemma RegulationAnnotationsAgree(parse: CodeParser, request: Request, db: Db, response: Response, id: string, o: Obligation)
    requires Answers(response, parse, request, db)
    requires id in request.regulations && id in db.regulations && id != "__proto__"
    ensures id in response.regulationMatrix.vals
    ensures var entry, home := response.regulationMatrix.vals[id], db.regulations[id].jurisdictionId;
      var passes := request.sectors == [] || exists s :: s in request.sectors && s in db.regulations[id].sectors;
      && (o == Mandatory ==> AllMarks(response.annotatedIssues, {home}, o, Some(id)) == if passes then entry.mandatoryViolations else 0)
      && (o == Recommended ==> AllMarks(response.annotatedIssues, {home}, o, Some(id)) == if passes then entry.recommendedViolations else 0)
      && (o == Optional && request.includeOptional ==>
            AllMarks(response.annotatedIssues, {home}, o, Some(id)) == if passes then entry.optionalViolations else 0)
  {
    RegulationMatrixMeans(parse, request, db, response, id);
    var home := db.regulations[id].jurisdictionId;
    AnnotationsAddUp(parse, request, db, response, {home}, o, Some(id));
    MarksOfRegulation(db, parse, request, id, o);
  }

  lemma MarksOfRegulation(db: Db, parse: CodeParser, request: Request, id: string, o: Obligation)
    requires id in request.regulations && id in db.regulations
    ensures var passes := request.sectors == [] || exists s :: s in request.sectors && s in db.regulations[id].sectors;
      CountPairs(db.requirements, request.codes, MarkTest(db, parse, request, {db.regulations[id].jurisdictionId}, o, Some(id)))
      == if passes then RegulationPairs(db, parse, request, o, id, None) else 0
  {
    var home := db.regulations[id].jurisdictionId;
    var passes := request.sectors == [] || exists s :: s in request.sectors && s in db.regulations[id].sectors;
    assert home in Reached(db, request);
    var test: Test := (row, code) => false;
    var mark := MarkTest(db, parse, request, {home}, o, Some(id));
    if passes {
      SamePairs(db.requirements, request.codes, mark, RegulationTest(db, parse, request, o, id, None));
    } else {
      SamePairs(db.requirements, request.codes, mark, test);
      NonePass(db.requirements, request.codes, test);
    }
  }

  lemma {:induction false} NonePass(rows: seq<RequirementRow>, codes: seq<string>, test: Test)
    requires forall row, code :: !test(row, code)
    ensures CountPairs(rows, codes, test) == 0
  {
    if rows != [] {
      NonePass(rows[..|rows|-1], codes, test);
      NoCodes(rows[|rows|-1], codes, test);
    }
  }

  // ---- The summary -----------------------------------------------------------------------------------

  /** What the summary adds up over the entries. */
  datatype Measure = MandatoryOnes | OptionalOnes | PassingOnes | FailingOnes

  function Weigh(measure: Measure, r: JurisdictionResult): nat {
    match measure
    case MandatoryOnes => r.mandatoryViolations
    case OptionalOnes => r.optionalViolations
    case PassingOnes => if r.status == Pass then 1 else 0
    case FailingOnes => if r.status == Fail then 1 else 0
  }

  function SumOf(measure: Measure, ids: seq<Id>, m: map<Id, JurisdictionResult>): nat
    requires forall id :: id in ids ==> id in m
  {
    if ids == [] then 0 else SumOf(measure, ids[..|ids|-1], m) + Weigh(measure, m[ids[|ids|-1]])
  }

  ghost predicate AddsUp(s: Summary, ids: seq<Id>, m: map<Id, JurisdictionResult>)
    requires forall id :: id in ids ==> id in m
  {
    && s.totalMandatoryViolations == SumOf(MandatoryOnes, ids, m) && s.totalOptionalViolations == SumOf(OptionalOnes, ids, m)
    && s.passing == SumOf(PassingOnes, ids, m) && s.failing == SumOf(FailingOnes, ids, m)
  }

  lemma {:induction false} SummarySums(ids: seq<Id>, m: map<Id, JurisdictionResult>)
    requires forall id :: id in ids ==> id in m
    ensures AddsUp(Summarize(ValuesOf(ids, m)), ids, m)
  {
    if ids != [] {
      var front, id := ids[..|ids|-1], ids[|ids|-1];
      SummarySums(front, m);
      assert (ValuesOf(front, m) + [m[id]])[..|ValuesOf(front, m)|] == ValuesOf(front, m);
    }
  }

  /** The summary adds up the entries of the matrix, each once. */
  lemma SummaryMeans(parse: CodeParser, request: Request, db: Db, response: Response)
    requires Answers(response, parse, request, db)
    ensures AddsUp(response.summary, response.matrix.keys, response.matrix.vals) && Distinct(response.matrix.keys)
  {
    SummarySums(response.matrix.keys, response.matrix.vals);
  }
}
