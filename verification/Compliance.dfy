/** The compliance checker: one query over the closed jurisdictions and the three views built from its rows. */
module Compliance {
  import opened Common
  import opened Jurisdictions

  // ---- Stored tables -------------------------------------------------------------------------

  datatype Obligation = Mandatory | Recommended | Optional | Excluded

  function Text(o: Obligation): string {
    match o
    case Mandatory => "mandatory"
    case Recommended => "recommended"
    case Optional => "optional"
    case Excluded => "excluded"
  }

  datatype Regulation = Regulation(name: string, shortName: string, jurisdictionId: Id, enforcementDate: string,
                                   scope: string, sectors: seq<string>)

  datatype RequirementRow = RequirementRow(regulationId: string, wcagCriterion: string, obligation: Obligation, orgId: string)

  datatype Db = Db(jurisdictions: JurisdictionTable, regulations: map<string, Regulation>, requirements: seq<RequirementRow>)

  /** A requirement joined with its regulation. */
  datatype Requirement = Requirement(regulationId: string, regulationName: string, regulationShortName: string,
                                     jurisdictionId: Id, enforcementDate: string,
                                     wcagCriterion: string, obligation: Obligation)

  predicate RowSelected(db: Db, row: RequirementRow, jurisdictionIds: set<Id>, criteria: set<string>, orgId: Option<string>) {
    && row.regulationId in db.regulations
    && db.regulations[row.regulationId].jurisdictionId in jurisdictionIds
    && (row.wcagCriterion in criteria || row.wcagCriterion == "*")
    && (orgId.None? || row.orgId == "system" || row.orgId == orgId.value)
  }

  function Join(db: Db, row: RequirementRow): Requirement
    requires row.regulationId in db.regulations
  {
    var reg := db.regulations[row.regulationId];
    Requirement(row.regulationId, reg.name, reg.shortName, reg.jurisdictionId, reg.enforcementDate, row.wcagCriterion, row.obligation)
  }

  /** The rows `findRequirementsByCriteria` selects, in table order. */
  function SelectRows(db: Db, rows: seq<RequirementRow>, jurisdictionIds: set<Id>, criteria: set<string>,
                      orgId: Option<string>): seq<Requirement>
  {
    if rows == [] then [] else
    var row := rows[|rows|-1];
    var before := SelectRows(db, rows[..|rows|-1], jurisdictionIds, criteria, orgId);
    if RowSelected(db, row, jurisdictionIds, criteria, orgId) then before + [Join(db, row)] else before
  }

  /** `findRequirementsByCriteria`, with the checker's own test that both lists are non-empty. */
  function FindRequirements(db: Db, jurisdictionIds: set<Id>, criteria: set<string>, orgId: Option<string>): seq<Requirement> {
    if criteria == {} || jurisdictionIds == {} then [] else
    SelectRows(db, db.requirements, jurisdictionIds, criteria, orgId)
  }

  // ---- Requests and responses ----------------------------------------------------------------

  datatype ParsedCode = ParsedCode(criterion: string, level: string)

  /** An issue with what `parseIssueCode` made of its code. */
  datatype ParsedIssue = ParsedIssue(code: string, criterion: Option<string>, level: Option<string>)

  datatype Request = Request(jurisdictions: seq<Id>, regulations: seq<string>, codes: seq<string>,
                             includeOptional: bool, sectors: seq<string>, orgId: Option<string>)

  datatype Status = Pass | Fail | Partial

  datatype Violation = Violation(wcagCriterion: string, obligation: string, issueCount: nat)

  datatype RegulationResult = RegulationResult(regulationId: string, regulationName: string, shortName: string, status: Status,
                                               enforcementDate: string, scope: string, violations: seq<Violation>)

  datatype JurisdictionResult = JurisdictionResult(jurisdictionId: Id, jurisdictionName: string, status: Status,
                                                   mandatoryViolations: nat, recommendedViolations: nat, optionalViolations: nat,
                                                   regulations: seq<RegulationResult>)

  datatype RegulationEntry = RegulationEntry(regulationId: string, regulationName: string, shortName: string, jurisdictionId: Id,
                                             status: Status, mandatoryViolations: nat, recommendedViolations: nat,
                                             optionalViolations: nat, violatedRequirements: seq<Violation>)

  datatype AnnotatedIssue = AnnotatedIssue(code: string, wcagCriterion: string, wcagLevel: string, regulations: seq<Requirement>)

  datatype Summary = Summary(totalJurisdictions: nat, passing: nat, failing: nat,
                             totalMandatoryViolations: nat, totalOptionalViolations: nat)

  datatype Response = Response(matrix: OMap<Id, JurisdictionResult>, regulationMatrix: OMap<string, RegulationEntry>,
                               annotatedIssues: seq<AnnotatedIssue>, summary: Summary)

  // ---- Matching ------------------------------------------------------------------------------

  function SectorsOf(db: Db, regulationId: string): seq<string> {
    if regulationId in db.regulations then db.regulations[regulationId].sectors else []
  }

  function ScopeOf(db: Db, regulationId: string): string {
    if regulationId in db.regulations then db.regulations[regulationId].scope else "all"
  }

  predicate RegulationMatchesSectors(regSectors: seq<string>, filterSectors: seq<string>) {
    if filterSectors == [] then true
    else if regSectors == [] then false
    else exists s :: s in filterSectors && s in regSectors
  }

  predicate Hits(req: Requirement, parsed: ParsedIssue) {
    parsed.criterion.Some? && (req.wcagCriterion == parsed.criterion.value || req.wcagCriterion == "*")
  }

  /** The key `${criterion}:${obligation}`; a wildcard row takes the criterion of the issue. */
  function Key(criterion: string, obligation: string): string {
    criterion + ":" + obligation
  }

  function ViolationKey(req: Requirement, parsed: ParsedIssue): string
    requires Hits(req, parsed)
  {
    Key(if req.wcagCriterion == "*" then parsed.criterion.value else req.wcagCriterion, Text(req.obligation))
  }

  /** Reading a key back: cut at the last colon (`slice(0, -1)` when there is none). */
  function DecodeKey(key: string): (string, string) {
    var colon := LastIndexOf(key, ':');
    if colon >= 0 then (key[..colon], key[colon + 1..])
    else (if key == [] then [] else key[..|key|-1], key)
  }

  lemma ObligationTexts(o: Obligation, o': Obligation)
    ensures ':' !in Text(o)
    ensures Text(o) == Text(o') ==> o == o'
  {
    assert "mandatory"[0] == 'm' && "recommended"[0] == 'r' && "optional"[0] == 'o' && "excluded"[0] == 'e';
  }

  /** Keys decode to what was encoded, whatever characters the criterion has. */
  lemma DecodeInvertsKey(criterion: string, obligation: string)
    requires ':' !in obligation
    ensures DecodeKey(Key(criterion, obligation)) == (criterion, obligation)
  {
    var key := Key(criterion, obligation);
    assert key[|criterion|] == ':';
    assert forall k :: |criterion| < k < |key| ==> key[k] == obligation[k - |criterion| - 1];
    assert key[..|criterion|] == criterion && key[|criterion| + 1..] == obligation;
  }

  // ---- The issue-major view ------------------------------------------------------------------

  predicate Matches(db: Db, parsed: ParsedIssue, req: Requirement, sectors: seq<string>) {
    Hits(req, parsed) && (|sectors| > 0 ==> RegulationMatchesSectors(SectorsOf(db, req.regulationId), sectors))
  }

  function FindMatching(db: Db, parsed: ParsedIssue, requirements: seq<Requirement>, sectors: seq<string>): seq<Requirement> {
    if parsed.criterion.None? || requirements == [] then [] else
    var req := requirements[|requirements|-1];
    var before := FindMatching(db, parsed, requirements[..|requirements|-1], sectors);
    if Matches(db, parsed, req, sectors) then before + [req] else before
  }

  function KeepRegulations(reqs: seq<Requirement>, ids: set<string>): seq<Requirement> {
    if reqs == [] then [] else
    var before, req := KeepRegulations(reqs[..|reqs|-1], ids), reqs[|reqs|-1];
    if req.regulationId in ids then before + [req] else before
  }

  function Annotate(db: Db, request: Request, parsed: ParsedIssue, requirements: seq<Requirement>): AnnotatedIssue {
    var matching := FindMatching(db, parsed, requirements, request.sectors);
    AnnotatedIssue(parsed.code,
                   if parsed.criterion.Some? then parsed.criterion.value else parsed.code,
                   if parsed.level.Some? then parsed.level.value else "A",
                   if request.regulations != [] then KeepRegulations(matching, Elements(request.regulations)) else matching)
  }

  // ---- The requirement-major view (a map of maps) --------------------------------------------

  datatype Group = Group(rep: Requirement, violations: OMap<string, nat>)

  /** One more issue against one requirement. */
  function Bump(counts: OMap<string, nat>, key: string): OMap<string, nat> {
    counts.Put(key, (if key in counts.vals then counts.vals[key] else 0) + 1)
  }

  /** The violation counts of one regulation after its row `req` met the issues. */
  function Tally(counts: OMap<string, nat>, req: Requirement, issues: seq<ParsedIssue>): OMap<string, nat> {
    if issues == [] then counts else
    var before := Tally(counts, req, issues[..|issues|-1]);
    var parsed := issues[|issues|-1];
    if Hits(req, parsed) then Bump(before, ViolationKey(req, parsed)) else before
  }

  /** The map of maps after the rows `reqs`: regulation id to its counts. */
  function Groups(db: Db, reqs: seq<Requirement>, issues: seq<ParsedIssue>, sectors: seq<string>): OMap<string, Group> {
    if reqs == [] then Empty() else
    var before := Groups(db, reqs[..|reqs|-1], issues, sectors);
    var req := reqs[|reqs|-1];
    if RegulationMatchesSectors(SectorsOf(db, req.regulationId), sectors) then CountInto(before, req, issues) else before
  }

  function CountInto(before: OMap<string, Group>, req: Requirement, issues: seq<ParsedIssue>): OMap<string, Group> {
    var group := if req.regulationId in before.vals then before.vals[req.regulationId] else Group(req, Empty());
    before.Put(req.regulationId, group.(violations := Tally(group.violations, req, issues)))
  }

  datatype Totals = Totals(mandatory: nat, recommended: nat, optional: nat)
  {
    function Add(t: Totals): Totals {
      Totals(mandatory + t.mandatory, recommended + t.recommended, optional + t.optional)
    }
  }

  /** Where a count of this obligation goes. Everything that is not mandatory or recommended is "optional". */
  function Classify(obligation: string, count: nat): Totals {
    if obligation == "mandatory" then Totals(count, 0, 0)
    else if obligation == "recommended" then Totals(0, count, 0)
    else Totals(0, 0, count)
  }

  predicate Shown(obligation: string, includeOptional: bool) {
    includeOptional || obligation != "optional"
  }

  /** The violations listed for one regulation, with their totals. */
  function BuildViolations(keys: seq<string>, counts: map<string, nat>, includeOptional: bool): (seq<Violation>, Totals)
    requires forall k :: k in keys ==> k in counts
  {
    if keys == [] then ([], Totals(0, 0, 0)) else
    var (built, totals) := BuildViolations(keys[..|keys|-1], counts, includeOptional);
    var key := keys[|keys|-1];
    var (criterion, obligation) := DecodeKey(key);
    if !Shown(obligation, includeOptional) then (built, totals) else
    (built + [Violation(criterion, obligation, counts[key])], totals.Add(Classify(obligation, counts[key])))
  }

  function BuildRegulation(db: Db, regulationId: string, group: Group, includeOptional: bool): (RegulationResult, Totals)
    requires group.violations.Valid()
  {
    var (built, totals) := BuildViolations(group.violations.keys, group.violations.vals, includeOptional);
    (RegulationResult(regulationId, group.rep.regulationName, group.rep.regulationShortName,
                      if totals.mandatory > 0 then Fail else Pass, group.rep.enforcementDate, ScopeOf(db, regulationId), built),
     totals)
  }

  ghost predicate GroupsValid(groups: OMap<string, Group>) {
    groups.Valid() && forall k :: k in groups.vals ==> groups.vals[k].violations.Valid()
  }

  function BuildRegulations(db: Db, keys: seq<string>, groups: map<string, Group>, includeOptional: bool): (seq<RegulationResult>, Totals)
    requires forall k :: k in keys ==> k in groups && groups[k].violations.Valid()
  {
    if keys == [] then ([], Totals(0, 0, 0)) else
    var (results, totals) := BuildRegulations(db, keys[..|keys|-1], groups, includeOptional);
    var (result, more) := BuildRegulation(db, keys[|keys|-1], groups[keys[|keys|-1]], includeOptional);
    (results + [result], totals.Add(more))
  }

  lemma {:induction false} TallyValid(counts: OMap<string, nat>, req: Requirement, issues: seq<ParsedIssue>)
    requires counts.Valid()
    ensures Tally(counts, req, issues).Valid()
  {
    if issues != [] {
      TallyValid(counts, req, issues[..|issues|-1]);
    }
  }

  lemma {:induction false} GroupsAreValid(db: Db, reqs: seq<Requirement>, issues: seq<ParsedIssue>, sectors: seq<string>)
    ensures GroupsValid(Groups(db, reqs, issues, sectors))
  {
    if reqs != [] {
      GroupsAreValid(db, reqs[..|reqs|-1], issues, sectors);
      var before, req := Groups(db, reqs[..|reqs|-1], issues, sectors), reqs[|reqs|-1];
      var group := if req.regulationId in before.vals then before.vals[req.regulationId] else Group(req, Empty());
      TallyValid(group.violations, req, issues);
    }
  }

  function InHierarchy(requirements: seq<Requirement>, hierIds: set<Id>): seq<Requirement> {
    if requirements == [] then [] else
    var before, req := InHierarchy(requirements[..|requirements|-1], hierIds), requirements[|requirements|-1];
    if req.jurisdictionId in hierIds then before + [req] else before
  }

  function NameOf(db: Db, id: Id): string {
    if id in db.jurisdictions then db.jurisdictions[id].name else id
  }

  /** The matrix entry of one jurisdiction, from the rows of its own hierarchy. */
  function JurisdictionEntry(db: Db, id: Id, relevant: seq<Requirement>, issues: seq<ParsedIssue>,
                             sectors: seq<string>, includeOptional: bool): JurisdictionResult
  {
    var groups := Groups(db, relevant, issues, sectors);
    GroupsAreValid(db, relevant, issues, sectors);
    var (results, totals) := BuildRegulations(db, groups.keys, groups.vals, includeOptional);
    JurisdictionResult(id, NameOf(db, id), if totals.mandatory > 0 then Fail else Pass,
                       totals.mandatory, totals.recommended, totals.optional, results)
  }

  predicate CachesAgree(db: Db, requirements: seq<Requirement>, sectorCache: map<string, seq<string>>, scopeCache: map<string, string>) {
    forall r :: r in requirements ==>
      && r.regulationId in sectorCache && sectorCache[r.regulationId] == SectorsOf(db, r.regulationId)
      && r.regulationId in scopeCache && scopeCache[r.regulationId] == ScopeOf(db, r.regulationId)
  }

  lemma {:induction false} GroupsComeFromRows(db: Db, reqs: seq<Requirement>, issues: seq<ParsedIssue>, sectors: seq<string>, k: string)
    requires k in Groups(db, reqs, issues, sectors).vals
    ensures exists r :: r in reqs && r.regulationId == k
  {
    var req := reqs[|reqs|-1];
    if k == req.regulationId {
      assert req in reqs;
    } else {
      GroupsComeFromRows(db, reqs[..|reqs|-1], issues, sectors, k);
    }
  }

  lemma {:induction false} InHierarchyKeeps(requirements: seq<Requirement>, hierIds: set<Id>, r: Requirement)
    ensures r in InHierarchy(requirements, hierIds) <==> r in requirements && r.jurisdictionId in hierIds
  {
    if requirements != [] {
      InHierarchyKeeps(requirements[..|requirements|-1], hierIds, r);
      assert requirements == requirements[..|requirements|-1] + [requirements[|requirements|-1]];
    }
  }

  method RelevantRequirements(requirements: seq<Requirement>, hierIds: set<Id>) returns (relevant: seq<Requirement>)
    ensures relevant == InHierarchy(requirements, hierIds)
  {
    relevant := [];
    for i := 0 to |requirements|
      invariant relevant == InHierarchy(requirements[..i], hierIds)
    {
      assert requirements[..i + 1][..i] == requirements[..i];
      if requirements[i].jurisdictionId in hierIds {
        relevant := relevant + [requirements[i]];
      }
    }
    assert requirements[..|requirements|] == requirements;
  }

  /** The inner loop: one row against every issue. */
  method CountViolations(before: OMap<string, nat>, req: Requirement, issues: seq<ParsedIssue>) returns (violations: OMap<string, nat>)
    ensures violations == Tally(before, req, issues)
  {
    violations := before;
    for k := 0 to |issues|
      invariant violations == Tally(before, req, issues[..k])
    {
      assert issues[..k + 1][..k] == issues[..k];
      if Hits(req, issues[k]) {
        violations := Bump(violations, ViolationKey(req, issues[k]));
      }
    }
    assert issues[..|issues|] == issues;
  }

  /** One row of the outer loop: find or make the entry of its regulation and count into it. */
  method CollectRow(before: OMap<string, Group>, req: Requirement, issues: seq<ParsedIssue>) returns (groups: OMap<string, Group>)
    ensures groups == CountInto(before, req, issues)
  {
    groups := before;
    if req.regulationId !in groups.vals {
      groups := groups.Put(req.regulationId, Group(req, Empty()));
    }
    var entry := groups.vals[req.regulationId];
    var violations := CountViolations(entry.violations, req, issues);
    groups := groups.Put(req.regulationId, entry.(violations := violations));
  }

  /** The loop nest that fills the map of maps. */
  method CollectViolations(ghost db: Db, relevant: seq<Requirement>, issues: seq<ParsedIssue>, sectors: seq<string>,
                           sectorCache: map<string, seq<string>>, ghost scopeCache: map<string, string>)
      returns (regulationViolations: OMap<string, Group>)
    requires CachesAgree(db, relevant, sectorCache, scopeCache)
    ensures regulationViolations == Groups(db, relevant, issues, sectors)
  {
    regulationViolations := Empty();
    for i := 0 to |relevant|
      invariant regulationViolations == Groups(db, relevant[..i], issues, sectors)
    {
      var req := relevant[i];
      assert relevant[..i + 1][..i] == relevant[..i];
      var regSectors := if req.regulationId in sectorCache then sectorCache[req.regulationId] else [];
      if RegulationMatchesSectors(regSectors, sectors) {
        regulationViolations := CollectRow(regulationViolations, req, issues);
      }
    }
    assert relevant[..|relevant|] == relevant;
  }

  /** The violations of one regulation, decoded from its keys, with their totals. */
  method ListViolations(counts: OMap<string, nat>, includeOptional: bool) returns (built: seq<Violation>, totals: Totals)
    requires counts.Valid()
    ensures (built, totals) == BuildViolations(counts.keys, counts.vals, includeOptional)
  {
    built, totals := [], Totals(0, 0, 0);
    for k := 0 to |counts.keys|
      invariant (built, totals) == BuildViolations(counts.keys[..k], counts.vals, includeOptional)
    {
      var key := counts.keys[k];
      assert counts.keys[..k + 1][..k] == counts.keys[..k];
      var (criterion, obligation) := DecodeKey(key);
      if Shown(obligation, includeOptional) {
        built := built + [Violation(criterion, obligation, counts.vals[key])];
        totals := totals.Add(Classify(obligation, counts.vals[key]));
      }
    }
    assert counts.keys[..|counts.keys|] == counts.keys;
  }

  /** The per-regulation results, in the order the regulations were met. */
  method BuildResults(ghost db: Db, groups: OMap<string, Group>, scopeCache: map<string, string>, includeOptional: bool)
      returns (results: seq<RegulationResult>, totals: Totals)
    requires GroupsValid(groups)
    requires forall k :: k in groups.vals ==> k in scopeCache && scopeCache[k] == ScopeOf(db, k)
    ensures (results, totals) == BuildRegulations(db, groups.keys, groups.vals, includeOptional)
  {
    results, totals := [], Totals(0, 0, 0);
    for i := 0 to |groups.keys|
      invariant (results, totals) == BuildRegulations(db, groups.keys[..i], groups.vals, includeOptional)
    {
      var regulationId := groups.keys[i];
      assert groups.keys[..i + 1][..i] == groups.keys[..i];
      var group := groups.vals[regulationId];
      var built, regTotals := ListViolations(group.violations, includeOptional);
      results := results + [RegulationResult(regulationId, group.rep.regulationName, group.rep.regulationShortName,
                                             if regTotals.mandatory > 0 then Fail else Pass, group.rep.enforcementDate,
                                             if regulationId in scopeCache then scopeCache[regulationId] else "all", built)];
      totals := totals.Add(regTotals);
    }
    assert groups.keys[..|groups.keys|] == groups.keys;
  }

  /** `buildJurisdictionResult`. */
  method BuildJurisdictionResult(ghost db: Db, id: Id, name: string, hierIds: set<Id>, issues: seq<ParsedIssue>,
                                 requirements: seq<Requirement>, sectorCache: map<string, seq<string>>,
                                 scopeCache: map<string, string>, sectors: seq<string>, includeOptional: bool)
      returns (result: JurisdictionResult)
    requires name == NameOf(db, id)
    requires CachesAgree(db, requirements, sectorCache, scopeCache)
    ensures result == JurisdictionEntry(db, id, InHierarchy(requirements, hierIds), issues, sectors, includeOptional)
  {
    var relevant := RelevantRequirements(requirements, hierIds);
    forall r | r in relevant ensures r in requirements { InHierarchyKeeps(requirements, hierIds, r); }
    var groups := CollectViolations(db, relevant, issues, sectors, sectorCache, scopeCache);
    GroupsAreValid(db, relevant, issues, sectors);
    forall k | k in groups.vals ensures k in scopeCache && scopeCache[k] == ScopeOf(db, k) { GroupsComeFromRows(db, relevant, issues, sectors, k); }
    var results, totals := BuildResults(db, groups, scopeCache, includeOptional);
    result := JurisdictionResult(id, name, if totals.mandatory > 0 then Fail else Pass,
                                 totals.mandatory, totals.recommended, totals.optional, results);
  }

  // ---- The regulation view -------------------------------------------------------------------

  datatype RegulationTally = RegulationTally(violations: OMap<string, Violation>, totals: Totals)

  predicate Counted(req: Requirement, parsed: ParsedIssue, includeOptional: bool) {
    Hits(req, parsed) && req.obligation != Excluded && (includeOptional || req.obligation != Optional)
  }

  /** One more issue of a criterion under an obligation. */
  function BumpViolation(m: OMap<string, Violation>, criterion: string, obligation: string): OMap<string, Violation> {
    var key := Key(criterion, obligation);
    m.Put(key, if key in m.vals then m.vals[key].(issueCount := m.vals[key].issueCount + 1) else Violation(criterion, obligation, 1))
  }

  function TallyOne(t: RegulationTally, req: Requirement, parsed: ParsedIssue, includeOptional: bool): RegulationTally {
    if !Counted(req, parsed, includeOptional) then t else
    var criterion := if req.wcagCriterion == "*" then parsed.criterion.value else req.wcagCriterion;
    RegulationTally(BumpViolation(t.violations, criterion, Text(req.obligation)), t.totals.Add(Classify(Text(req.obligation), 1)))
  }

  function TallyRow(t: RegulationTally, req: Requirement, issues: seq<ParsedIssue>, includeOptional: bool): RegulationTally {
    if issues == [] then t else
    TallyOne(TallyRow(t, req, issues[..|issues|-1], includeOptional), req, issues[|issues|-1], includeOptional)
  }

  function TallyRows(reqs: seq<Requirement>, issues: seq<ParsedIssue>, includeOptional: bool): RegulationTally {
    if reqs == [] then RegulationTally(Empty(), Totals(0, 0, 0)) else
    TallyRow(TallyRows(reqs[..|reqs|-1], issues, includeOptional), reqs[|reqs|-1], issues, includeOptional)
  }

  function ValuesOf<K(!new, ==), V>(keys: seq<K>, vals: map<K, V>): seq<V>
    requires forall k :: k in keys ==> k in vals
  {
    if keys == [] then [] else ValuesOf(keys[..|keys|-1], vals) + [vals[keys[|keys|-1]]]
  }

  lemma {:induction false} TallyRowValid(t: RegulationTally, req: Requirement, issues: seq<ParsedIssue>, includeOptional: bool)
    requires t.violations.Valid()
    ensures TallyRow(t, req, issues, includeOptional).violations.Valid()
  {
    if issues != [] {
      TallyRowValid(t, req, issues[..|issues|-1], includeOptional);
    }
  }

  lemma {:induction false} TallyRowsValid(reqs: seq<Requirement>, issues: seq<ParsedIssue>, includeOptional: bool)
    ensures TallyRows(reqs, issues, includeOptional).violations.Valid()
  {
    if reqs != [] {
      TallyRowsValid(reqs[..|reqs|-1], issues, includeOptional);
      TallyRowValid(TallyRows(reqs[..|reqs|-1], issues, includeOptional), reqs[|reqs|-1], issues, includeOptional);
    }
  }

  /** The regulation matrix entry, from the rows of that regulation. */
  function RegulationView(regulationId: string, reg: Regulation, regReqs: seq<Requirement>, issues: seq<ParsedIssue>,
                          includeOptional: bool): RegulationEntry
  {
    var t := TallyRows(regReqs, issues, includeOptional);
    TallyRowsValid(regReqs, issues, includeOptional);
    RegulationEntry(regulationId, reg.name, reg.shortName, reg.jurisdictionId,
                    if t.totals.mandatory > 0 then Fail else if t.totals.recommended > 0 || t.totals.optional > 0 then Partial else Pass,
                    t.totals.mandatory, t.totals.recommended, t.totals.optional, ValuesOf(t.violations.keys, t.violations.vals))
  }

  /** The inner loop of the regulation view: one row against every issue. */
  method CountRow(before: RegulationTally, req: Requirement, issues: seq<ParsedIssue>, includeOptional: bool)
      returns (t: RegulationTally)
    ensures t == TallyRow(before, req, issues, includeOptional)
  {
    t := before;
    for k := 0 to |issues|
      invariant t == TallyRow(before, req, issues[..k], includeOptional)
    {
      var parsed := issues[k];
      assert issues[..k + 1][..k] == issues[..k];
      if parsed.criterion.None? { continue; }
      if req.wcagCriterion != parsed.criterion.value && req.wcagCriterion != "*" { continue; }
      var effectiveCriterion := if req.wcagCriterion == "*" then parsed.criterion.value else req.wcagCriterion;
      if req.obligation == Excluded { continue; }
      if !includeOptional && req.obligation == Optional { continue; }
      var key := Key(effectiveCriterion, Text(req.obligation));
      var violation := Violation(effectiveCriterion, Text(req.obligation), 1);
      if key in t.violations.vals {
        var existing := t.violations.vals[key];
        violation := existing.(issueCount := existing.issueCount + 1);
      }
      ObligationTexts(req.obligation, Mandatory);
      ObligationTexts(req.obligation, Recommended);
      var counted := if req.obligation == Mandatory then Totals(1, 0, 0)
                     else if req.obligation == Recommended then Totals(0, 1, 0) else Totals(0, 0, 1);
      t := RegulationTally(t.violations.Put(key, violation), t.totals.Add(counted));
    }
    assert issues[..|issues|] == issues;
  }

  method RegulationRequirements(requirements: seq<Requirement>, regulationId: string) returns (regReqs: seq<Requirement>)
    ensures regReqs == KeepRegulations(requirements, {regulationId})
  {
    regReqs := [];
    for i := 0 to |requirements|
      invariant regReqs == KeepRegulations(requirements[..i], {regulationId})
    {
      assert requirements[..i + 1][..i] == requirements[..i];
      if requirements[i].regulationId == regulationId {
        regReqs := regReqs + [requirements[i]];
      }
    }
    assert requirements[..|requirements|] == requirements;
  }

  method BuildRegulationEntry(regulationId: string, reg: Regulation, requirements: seq<Requirement>, issues: seq<ParsedIssue>,
                              includeOptional: bool) returns (entry: RegulationEntry)
    ensures entry == RegulationView(regulationId, reg, KeepRegulations(requirements, {regulationId}), issues, includeOptional)
  {
    var regReqs := RegulationRequirements(requirements, regulationId);
    var t := RegulationTally(Empty(), Totals(0, 0, 0));
    for i := 0 to |regReqs|
      invariant t == TallyRows(regReqs[..i], issues, includeOptional)
    {
      assert regReqs[..i + 1][..i] == regReqs[..i];
      t := CountRow(t, regReqs[i], issues, includeOptional);
    }
    assert regReqs[..|regReqs|] == regReqs;
    TallyRowsValid(regReqs, issues, includeOptional);
    var status := if t.totals.mandatory > 0 then Fail
                  else if t.totals.recommended > 0 || t.totals.optional > 0 then Partial else Pass;
    entry := RegulationEntry(regulationId, reg.name, reg.shortName, reg.jurisdictionId, status, t.totals.mandatory,
                             t.totals.recommended, t.totals.optional, ValuesOf(t.violations.keys, t.violations.vals));
  }

  // ---- checkCompliance -----------------------------------------------------------------------

  type CodeParser = string -> Option<ParsedCode>

  function ParseIssues(parse: CodeParser, codes: seq<string>): (issues: seq<ParsedIssue>) {
    seq(|codes|, i requires 0 <= i < |codes| =>
      match parse(codes[i])
      case Some(p) => ParsedIssue(codes[i], Some(p.criterion), Some(p.level))
      case None => ParsedIssue(codes[i], None, None))
  }

  function Criteria(issues: seq<ParsedIssue>): set<string> {
    set p | p in issues && p.criterion.Some? :: p.criterion.value
  }

  ghost function Homes(db: Db, regulations: seq<string>): set<Id> {
    set r | r in regulations && r in db.regulations :: db.regulations[r].jurisdictionId
  }

  /** The jurisdictions the one query covers: the requested ones and the homes of the named regulations, closed together. */
  ghost function Widened(db: Db, request: Request): set<Id> {
    Closure(db.jurisdictions, Elements(request.jurisdictions) + Homes(db, request.regulations))
  }

  lemma HomesOfNext(db: Db, regulations: seq<string>, i: nat)
    requires i < |regulations|
    ensures Homes(db, regulations[..i + 1]) == Homes(db, regulations[..i])
              + if regulations[i] in db.regulations then {db.regulations[regulations[i]].jurisdictionId} else {}
  {
    assert regulations[..i + 1] == regulations[..i] + [regulations[i]];
  }

  /** Adding the hierarchy of one more home, or nothing when the home is covered, keeps the set a closure. */
  lemma WidenOne(table: JurisdictionTable, seeds: set<Id>, home: Id)
    ensures Closure(table, seeds + {home}) == Closure(table, seeds) + Closure(table, {home})
    ensures home in Closure(table, seeds) ==> Closure(table, seeds + {home}) == Closure(table, seeds)
  {
    ClosureOfUnion(table, seeds, {home});
    if home in Closure(table, seeds) {
      ClosureMonotone(table, {home}, seeds);
    }
  }

  /** One turn of step 3b: a covered home adds nothing, another one adds its whole hierarchy. */
  method WidenByHome(table: JurisdictionTable, resolved: set<Id>, home: Id, ghost seeds: set<Id>) returns (widened: set<Id>)
    requires resolved == Closure(table, seeds)
    ensures widened == Closure(table, seeds + {home})
  {
    WidenOne(table, seeds, home);
    widened := resolved;
    if home !in resolved {
      var ancestors := ResolveJurisdictionHierarchy([home], table);
      assert Elements([home]) == {home};
      widened := resolved + ancestors;
    }
  }

  /** Step 3b: widening one regulation at a time reaches the joint closure. */
  method WidenForRegulations(db: Db, request: Request) returns (resolved: set<Id>)
    ensures resolved == Widened(db, request)
  {
    resolved := ResolveJurisdictionHierarchy(request.jurisdictions, db.jurisdictions);
    ghost var asked, homes := Elements(request.jurisdictions), {};
    assert asked + homes == asked;
    for i := 0 to |request.regulations|
      invariant homes == Homes(db, request.regulations[..i])
      invariant resolved == Closure(db.jurisdictions, asked + homes)
    {
      var regId := request.regulations[i];
      HomesOfNext(db, request.regulations, i);
      if regId in db.regulations {
        var home := db.regulations[regId].jurisdictionId;
        resolved := WidenByHome(db.jurisdictions, resolved, home, asked + homes);
        assert (asked + homes) + {home} == asked + (homes + {home});
        homes := homes + {home};
      }
    }
    assert request.regulations[..|request.regulations|] == request.regulations;
  }

  method CacheRegulations(db: Db, requirements: seq<Requirement>)
      returns (sectorCache: map<string, seq<string>>, scopeCache: map<string, string>)
    ensures CachesAgree(db, requirements, sectorCache, scopeCache)
  {
    sectorCache, scopeCache := map[], map[];
    for i := 0 to |requirements|
      invariant CachesAgree(db, requirements[..i], sectorCache, scopeCache)
      invariant sectorCache.Keys == scopeCache.Keys
      invariant forall k :: k in sectorCache ==> sectorCache[k] == SectorsOf(db, k) && scopeCache[k] == ScopeOf(db, k)
    {
      var id := requirements[i].regulationId;
      assert requirements[..i + 1] == requirements[..i] + [requirements[i]];
      if id !in sectorCache {
        sectorCache := sectorCache[id := SectorsOf(db, id)];
        scopeCache := scopeCache[id := ScopeOf(db, id)];
      }
    }
    assert requirements[..|requirements|] == requirements;
  }

  /** The rows every view of the response is built from. */
  ghost function QueriedRows(db: Db, request: Request, issues: seq<ParsedIssue>): seq<Requirement> {
    FindRequirements(db, Widened(db, request), Criteria(issues), request.orgId)
  }

  ghost function EntryOf(db: Db, request: Request, issues: seq<ParsedIssue>, id: Id): JurisdictionResult {
    JurisdictionEntry(db, id, InHierarchy(QueriedRows(db, request, issues), Closure(db.jurisdictions, {id})),
                      issues, request.sectors, request.includeOptional)
  }

  /** The one name whose assignment to a plain object sets the prototype and adds no property. */
  const PROTO := "__proto__"

  /** Assigning a property of a plain object; the matrices are plain objects. */
  function PutOwn<V>(m: OMap<string, V>, key: string, v: V): (r: OMap<string, V>)
    ensures m.Valid() ==> r.Valid()
    ensures r.vals.Keys == m.vals.Keys + if key == PROTO then {} else {key}
  {
    if key == PROTO then m else m.Put(key, v)
  }

  ghost function Matrix(db: Db, request: Request, issues: seq<ParsedIssue>, ids: seq<Id>): OMap<Id, JurisdictionResult> {
    if ids == [] then Empty() else
    var id := ids[|ids|-1];
    PutOwn(Matrix(db, request, issues, ids[..|ids|-1]), id, EntryOf(db, request, issues, id))
  }

  ghost function RegulationMatrix(db: Db, request: Request, issues: seq<ParsedIssue>, ids: seq<string>): OMap<string, RegulationEntry> {
    if ids == [] then Empty() else
    var id := ids[|ids|-1];
    var before := RegulationMatrix(db, request, issues, ids[..|ids|-1]);
    if id !in db.regulations then before else
    PutOwn(before, id, RegulationView(id, db.regulations[id], KeepRegulations(QueriedRows(db, request, issues), {id}), issues, request.includeOptional))
  }

  function Summarize(results: seq<JurisdictionResult>): Summary {
    if results == [] then Summary(0, 0, 0, 0, 0) else
    var s, r := Summarize(results[..|results|-1]), results[|results|-1];
    Summary(s.totalJurisdictions + 1,
            s.passing + (if r.status == Pass then 1 else 0), s.failing + (if r.status == Fail then 1 else 0),
            s.totalMandatoryViolations + r.mandatoryViolations, s.totalOptionalViolations + r.optionalViolations)
  }

  method BuildEntry(db: Db, request: Request, id: Id, issues: seq<ParsedIssue>, requirements: seq<Requirement>,
                    sectorCache: map<string, seq<string>>, scopeCache: map<string, string>) returns (result: JurisdictionResult)
    requires requirements == QueriedRows(db, request, issues)
    requires CachesAgree(db, requirements, sectorCache, scopeCache)
    ensures result == EntryOf(db, request, issues, id)
  {
    var hierIds := ResolveJurisdictionHierarchy([id], db.jurisdictions);
    assert Elements([id]) == {id};
    result := BuildJurisdictionResult(db, id, NameOf(db, id), hierIds, issues, requirements, sectorCache, scopeCache,
                                      request.sectors, request.includeOptional);
  }

  method BuildMatrix(db: Db, request: Request, issues: seq<ParsedIssue>, requirements: seq<Requirement>,
                     sectorCache: map<string, seq<string>>, scopeCache: map<string, string>) returns (matrix: OMap<Id, JurisdictionResult>)
    requires requirements == QueriedRows(db, request, issues)
    requires CachesAgree(db, requirements, sectorCache, scopeCache)
    ensures matrix == Matrix(db, request, issues, request.jurisdictions) && matrix.Valid()
  {
    matrix := Empty();
    for i := 0 to |request.jurisdictions|
      invariant matrix.Valid()
      invariant matrix == Matrix(db, request, issues, request.jurisdictions[..i])
    {
      var id := request.jurisdictions[i];
      assert request.jurisdictions[..i + 1][..i] == request.jurisdictions[..i];
      var result := BuildEntry(db, request, id, issues, requirements, sectorCache, scopeCache);
      matrix := PutOwn(matrix, id, result);
    }
    assert request.jurisdictions[..|request.jurisdictions|] == request.jurisdictions;
  }

  /** Step 7b: unknown regulation ids are skipped. */
  method BuildRegulationMatrix(db: Db, request: Request, issues: seq<ParsedIssue>, requirements: seq<Requirement>)
      returns (regulationMatrix: OMap<string, RegulationEntry>)
    requires requirements == QueriedRows(db, request, issues)
    ensures regulationMatrix == RegulationMatrix(db, request, issues, request.regulations)
  {
    regulationMatrix := Empty();
    for i := 0 to |request.regulations|
      invariant regulationMatrix == RegulationMatrix(db, request, issues, request.regulations[..i])
    {
      var regId := request.regulations[i];
      assert request.regulations[..i + 1][..i] == request.regulations[..i];
      if regId in db.regulations {
        var entry := BuildRegulationEntry(regId, db.regulations[regId], requirements, issues, request.includeOptional);
        regulationMatrix := PutOwn(regulationMatrix, regId, entry);
      }
    }
    assert request.regulations[..|request.regulations|] == request.regulations;
  }

  /** `findMatchingRegulations`, with the cached sectors. */
  method FindMatchingRegulations(ghost db: Db, parsed: ParsedIssue, requirements: seq<Requirement>,
                                 sectorCache: map<string, seq<string>>, ghost scopeCache: map<string, string>, sectors: seq<string>)
      returns (matching: seq<Requirement>)
    requires CachesAgree(db, requirements, sectorCache, scopeCache)
    ensures matching == FindMatching(db, parsed, requirements, sectors)
  {
    matching := [];
    if parsed.criterion.None? { return; }
    for i := 0 to |requirements|
      invariant matching == FindMatching(db, parsed, requirements[..i], sectors)
    {
      var req := requirements[i];
      assert requirements[..i + 1][..i] == requirements[..i];
      if req.wcagCriterion != parsed.criterion.value && req.wcagCriterion != "*" { continue; }
      if |sectors| > 0 {
        var regSectors := if req.regulationId in sectorCache then sectorCache[req.regulationId] else [];
        if !RegulationMatchesSectors(regSectors, sectors) { continue; }
      }
      matching := matching + [req];
    }
    assert requirements[..|requirements|] == requirements;
  }

  method KeepSelected(reqs: seq<Requirement>, ids: set<string>) returns (kept: seq<Requirement>)
    ensures kept == KeepRegulations(reqs, ids)
  {
    kept := [];
    for i := 0 to |reqs|
      invariant kept == KeepRegulations(reqs[..i], ids)
    {
      assert reqs[..i + 1][..i] == reqs[..i];
      if reqs[i].regulationId in ids {
        kept := kept + [reqs[i]];
      }
    }
    assert reqs[..|reqs|] == reqs;
  }

  /** Step 6. */
  method AnnotateIssues(ghost db: Db, request: Request, issues: seq<ParsedIssue>, requirements: seq<Requirement>,
                        sectorCache: map<string, seq<string>>, ghost scopeCache: map<string, string>)
      returns (annotated: seq<AnnotatedIssue>)
    requires CachesAgree(db, requirements, sectorCache, scopeCache)
    ensures |annotated| == |issues|
    ensures forall i :: 0 <= i < |issues| ==> annotated[i] == Annotate(db, request, issues[i], requirements)
  {
    annotated := [];
    for k := 0 to |issues|
      invariant |annotated| == k
      invariant forall i :: 0 <= i < k ==> annotated[i] == Annotate(db, request, issues[i], requirements)
    {
      var parsed := issues[k];
      var scoped := FindMatchingRegulations(db, parsed, requirements, sectorCache, scopeCache, request.sectors);
      if |request.regulations| > 0 {
        scoped := KeepSelected(scoped, Elements(request.regulations));
      }
      annotated := annotated + [AnnotatedIssue(parsed.code,
                                               if parsed.criterion.Some? then parsed.criterion.value else parsed.code,
                                               if parsed.level.Some? then parsed.level.value else "A", scoped)];
    }
  }

  /** What `checkCompliance` answers: three views of the same queried rows. */
  ghost predicate Answers(response: Response, parse: CodeParser, request: Request, db: Db) {
    var issues := ParseIssues(parse, request.codes);
    && response.matrix == Matrix(db, request, issues, request.jurisdictions)
    && response.matrix.Valid()
    && response.regulationMatrix == RegulationMatrix(db, request, issues, request.regulations)
    && |response.annotatedIssues| == |issues|
    && (forall i :: 0 <= i < |issues| ==>
         response.annotatedIssues[i] == Annotate(db, request, issues[i], QueriedRows(db, request, issues)))
    && response.summary == Summarize(ValuesOf(response.matrix.keys, response.matrix.vals))
  }

  /** `checkCompliance`. */
  method CheckCompliance(parse: CodeParser, request: Request, db: Db) returns (response: Response)
    ensures Answers(response, parse, request, db)
  {
    var issues := ParseIssues(parse, request.codes);
    var resolved := WidenForRegulations(db, request);
    var requirements := FindRequirements(db, resolved, Criteria(issues), request.orgId);
    var sectorCache, scopeCache := CacheRegulations(db, requirements);

    var annotated := AnnotateIssues(db, request, issues, requirements, sectorCache, scopeCache);
    var matrix := BuildMatrix(db, request, issues, requirements, sectorCache, scopeCache);
    var regulationMatrix := BuildRegulationMatrix(db, request, issues, requirements);
    response := Response(matrix, regulationMatrix, annotated, Summarize(ValuesOf(matrix.keys, matrix.vals)));
  }
}
