/** The three views of a compliance response agree, and a batch answers each jurisdiction as if asked alone. */
module ComplianceViews {
  import opened Common
  import opened Jurisdictions
  import opened Compliance

  /** Which (row, issue) pairs to count. `None` leaves a dimension open; an empty sector list filters nothing. */
  datatype Selector = Selector(obligation: Obligation, regulation: Option<string>, criterion: Option<string>,
                               sectors: seq<string>, hierarchy: Option<set<Id>>)

  predicate PicksRow(db: Db, sel: Selector, req: Requirement) {
    && req.obligation == sel.obligation
    && (sel.regulation.None? || req.regulationId == sel.regulation.value)
    && (sel.hierarchy.None? || req.jurisdictionId in sel.hierarchy.value)
    && RegulationMatchesSectors(SectorsOf(db, req.regulationId), sel.sectors)
  }

  predicate Picks(db: Db, sel: Selector, req: Requirement, parsed: ParsedIssue) {
    PicksRow(db, sel, req) && Hits(req, parsed) && (sel.criterion.None? || parsed.criterion == sel.criterion)
  }

  /** The issues one row is counted for. */
  function CountRow(db: Db, sel: Selector, req: Requirement, issues: seq<ParsedIssue>): nat {
    if issues == [] then 0 else
    CountRow(db, sel, req, issues[..|issues|-1]) + if Picks(db, sel, req, issues[|issues|-1]) then 1 else 0
  }

  /** The number of (row, issue) pairs: the reference both matrices are measured against. */
  function Count(db: Db, sel: Selector, reqs: seq<Requirement>, issues: seq<ParsedIssue>): nat {
    if reqs == [] then 0 else
    Count(db, sel, reqs[..|reqs|-1], issues) + CountRow(db, sel, reqs[|reqs|-1], issues)
  }

  // ---- Counts stored under string keys -------------------------------------------------------

  predicate PicksKey(sel: Selector, key: string) {
    DecodeKey(key).1 == Text(sel.obligation) && (sel.criterion.None? || DecodeKey(key).0 == sel.criterion.value)
  }

  ghost function KeyWeight(sel: Selector): (string, nat) -> nat {
    (key: string, count: nat) => if PicksKey(sel, key) then count else 0
  }

  ghost function TallySum(sel: Selector, counts: OMap<string, nat>): nat {
    if counts.Valid() then SumOver(counts.keys, counts.vals, KeyWeight(sel)) else 0
  }

  lemma KeyPicksLikePair(db: Db, sel: Selector, req: Requirement, parsed: ParsedIssue)
    requires Hits(req, parsed)
    ensures PicksKey(sel, ViolationKey(req, parsed))
        <==> req.obligation == sel.obligation && (sel.criterion.None? || parsed.criterion == sel.criterion)
  {
    ObligationTexts(req.obligation, sel.obligation);
    DecodeInvertsKey(parsed.criterion.value, Text(req.obligation));
  }

  lemma KeyWeightNext(sel: Selector, key: string, n: nat)
    ensures KeyWeight(sel)(key, n + 1) == KeyWeight(sel)(key, n) + if PicksKey(sel, key) then 1 else 0
    ensures KeyWeight(sel)(key, 0) == 0
  {
  }

  lemma BumpCounts(sel: Selector, counts: OMap<string, nat>, key: string)
    requires counts.Valid()
    ensures TallySum(sel, Bump(counts, key)) == TallySum(sel, counts) + if PicksKey(sel, key) then 1 else 0
  {
    var n := if key in counts.vals then counts.vals[key] else 0;
    KeyWeightNext(sel, key, n);
    SumIncrement(counts, key, n, KeyWeight(sel), if PicksKey(sel, key) then 1 else 0);
  }

  lemma {:induction false} TallyCounts(db: Db, sel: Selector, counts: OMap<string, nat>, req: Requirement, issues: seq<ParsedIssue>)
    requires counts.Valid()
    requires sel.hierarchy.None? && (sel.regulation.None? || sel.regulation.value == req.regulationId)
    requires RegulationMatchesSectors(SectorsOf(db, req.regulationId), sel.sectors)
    ensures TallySum(sel, Tally(counts, req, issues)) == TallySum(sel, counts) + CountRow(db, sel, req, issues)
  {
    if issues != [] {
      var front, parsed := issues[..|issues|-1], issues[|issues|-1];
      TallyCounts(db, sel, counts, req, front);
      if Hits(req, parsed) {
        TallyValid(counts, req, front);
        KeyPicksLikePair(db, sel, req, parsed);
        BumpCounts(sel, Tally(counts, req, front), ViolationKey(req, parsed));
      }
    }
  }

  ghost function WeighGroup(sel: Selector, id: string, group: Group): nat {
    if sel.regulation.None? || sel.regulation.value == id then TallySum(sel, group.violations) else 0
  }

  ghost function GroupWeight(sel: Selector): (string, Group) -> nat {
    (id: string, group: Group) => WeighGroup(sel, id, group)
  }

  ghost function GroupSum(sel: Selector, groups: OMap<string, Group>): nat {
    if groups.Valid() then SumOver(groups.keys, groups.vals, GroupWeight(sel)) else 0
  }

  lemma WeightAfter(db: Db, sel: Selector, group: Group, req: Requirement, issues: seq<ParsedIssue>)
    requires sel.hierarchy.None? && group.violations.Valid()
    requires RegulationMatchesSectors(SectorsOf(db, req.regulationId), sel.sectors)
    ensures WeighGroup(sel, req.regulationId, group.(violations := Tally(group.violations, req, issues)))
         == WeighGroup(sel, req.regulationId, group) + CountRow(db, sel, req, issues)
  {
    if sel.regulation.None? || sel.regulation.value == req.regulationId {
      TallyCounts(db, sel, group.violations, req, issues);
    } else {
      NothingPicked(db, sel, req, issues);
    }
  }

  /** One more row adds exactly the issues it is counted for. */
  lemma GroupsStep(db: Db, sel: Selector, before: OMap<string, Group>, req: Requirement, issues: seq<ParsedIssue>)
    requires sel.hierarchy.None? && GroupsValid(before)
    requires RegulationMatchesSectors(SectorsOf(db, req.regulationId), sel.sectors)
    ensures GroupSum(sel, CountInto(before, req, issues)) == GroupSum(sel, before) + CountRow(db, sel, req, issues)
  {
    var group := if req.regulationId in before.vals then before.vals[req.regulationId] else Group(req, Empty());
    WeightAfter(db, sel, group, req, issues);
    SumPut(before, req.regulationId, group.(violations := Tally(group.violations, req, issues)), GroupWeight(sel));
    assert group.violations == Empty() ==> WeighGroup(sel, req.regulationId, group) == 0;
  }

  /** The map of maps holds exactly the matching pairs. */
  lemma {:induction false} GroupsCount(db: Db, sel: Selector, reqs: seq<Requirement>, issues: seq<ParsedIssue>)
    requires sel.hierarchy.None?
    ensures GroupSum(sel, Groups(db, reqs, issues, sel.sectors)) == Count(db, sel, reqs, issues)
  {
    if reqs != [] {
      var front, req := reqs[..|reqs|-1], reqs[|reqs|-1];
      GroupsCount(db, sel, front, issues);
      GroupsAreValid(db, front, issues, sel.sectors);
      if RegulationMatchesSectors(SectorsOf(db, req.regulationId), sel.sectors) {
        GroupsStep(db, sel, Groups(db, front, issues, sel.sectors), req, issues);
      } else {
        NothingPicked(db, sel, req, issues);
      }
    }
  }

  lemma {:induction false} NothingPicked(db: Db, sel: Selector, req: Requirement, issues: seq<ParsedIssue>)
    requires !PicksRow(db, sel, req)
    ensures CountRow(db, sel, req, issues) == 0
  {
    if issues != [] {
      NothingPicked(db, sel, req, issues[..|issues|-1]);
    }
  }

  // ---- The jurisdiction matrix counts pairs --------------------------------------------------

  function All(o: Obligation, sectors: seq<string>): Selector {
    Selector(o, None, None, sectors, None)
  }

  /** Every key of a violations map encodes some obligation. */
  ghost predicate Encodes(counts: OMap<string, nat>) {
    forall key :: key in counts.keys ==> EncodesKey(key)
  }

  lemma {:induction false} TallyEncodes(counts: OMap<string, nat>, req: Requirement, issues: seq<ParsedIssue>)
    requires Encodes(counts)
    ensures Encodes(Tally(counts, req, issues))
  {
    if issues != [] {
      TallyEncodes(counts, req, issues[..|issues|-1]);
      if Hits(req, issues[|issues|-1]) {
        ObligationTexts(req.obligation, req.obligation);
        DecodeInvertsKey(issues[|issues|-1].criterion.value, Text(req.obligation));
      }
    }
  }

  lemma {:induction false} GroupsEncode(db: Db, reqs: seq<Requirement>, issues: seq<ParsedIssue>, sectors: seq<string>)
    ensures forall id :: id in Groups(db, reqs, issues, sectors).vals ==> Encodes(Groups(db, reqs, issues, sectors).vals[id].violations)
  {
    if reqs != [] {
      var before, req := Groups(db, reqs[..|reqs|-1], issues, sectors), reqs[|reqs|-1];
      GroupsEncode(db, reqs[..|reqs|-1], issues, sectors);
      var group := if req.regulationId in before.vals then before.vals[req.regulationId] else Group(req, Empty());
      TallyEncodes(group.violations, req, issues);
    }
  }

  /** The issues listed with one criterion and obligation. */
  function Listed(violations: seq<Violation>, criterion: string, obligation: string): nat {
    if violations == [] then 0 else
    Listed(violations[..|violations|-1], criterion, obligation)
    + var v := violations[|violations|-1]; if v.wcagCriterion == criterion && v.obligation == obligation then v.issueCount else 0
  }

  lemma ListedAppend(violations: seq<Violation>, v: Violation, criterion: string, obligation: string)
    ensures Listed(violations + [v], criterion, obligation)
         == Listed(violations, criterion, obligation) + if v.wcagCriterion == criterion && v.obligation == obligation then v.issueCount else 0
  {
    assert (violations + [v])[..|violations|] == violations;
  }

  function SumKeys(sel: Selector, keys: seq<string>, counts: map<string, nat>): nat
    requires forall k :: k in keys ==> k in counts
  {
    if keys == [] then 0 else
    SumKeys(sel, keys[..|keys|-1], counts) + if PicksKey(sel, keys[|keys|-1]) then counts[keys[|keys|-1]] else 0
  }

  lemma {:induction false} SumKeysIsSumOver(sel: Selector, keys: seq<string>, counts: map<string, nat>)
    requires forall k :: k in keys ==> k in counts
    ensures SumKeys(sel, keys, counts) == SumOver(keys, counts, KeyWeight(sel))
  {
    if keys != [] {
      SumKeysIsSumOver(sel, keys[..|keys|-1], counts);
    }
  }

  ghost predicate EncodesKey(key: string) {
    exists o :: DecodeKey(key).1 == Text(o)
  }

  /** The total an obligation is added to; excluded rows have none of their own. */
  function TotalOf(t: Totals, o: Obligation): nat {
    match o
    case Mandatory => t.mandatory
    case Recommended => t.recommended
    case Optional => t.optional
    case Excluded => 0
  }

  /** What the jurisdiction matrix counts as `o`: excluded rows end up in the optional total. */
  function MatrixSum(o: Obligation, includeOptional: bool, sum: Obligation -> nat): nat {
    match o
    case Optional => (if includeOptional then sum(Optional) else 0) + sum(Excluded)
    case Excluded => 0
    case _ => sum(o)
  }

  /** Reading an obligation back from its text. */
  lemma ReadsObligation(p: Obligation, count: nat, includeOptional: bool)
    ensures Classify(Text(p), count) == match p
      case Mandatory => Totals(count, 0, 0)
      case Recommended => Totals(0, count, 0)
      case _ => Totals(0, 0, count)
    ensures Shown(Text(p), includeOptional) <==> includeOptional || p != Optional
  {
    ObligationTexts(p, Mandatory);
    ObligationTexts(p, Recommended);
    ObligationTexts(p, Optional);
  }

  lemma PicksOwnKey(p: Obligation, q: Obligation, key: string, sectors: seq<string>)
    requires DecodeKey(key).1 == Text(p)
    ensures PicksKey(All(q, sectors), key) <==> p == q
  {
    ObligationTexts(p, q);
  }

  lemma KeyTotal(key: string, count: nat, includeOptional: bool, sectors: seq<string>, o: Obligation)
    requires EncodesKey(key)
    ensures (if Shown(DecodeKey(key).1, includeOptional) then TotalOf(Classify(DecodeKey(key).1, count), o) else 0)
         == MatrixSum(o, includeOptional, p => if PicksKey(All(p, sectors), key) then count else 0)
  {
    var p :| DecodeKey(key).1 == Text(p);
    ReadsObligation(p, count, includeOptional);
    forall q { PicksOwnKey(p, q, key, sectors); }
  }

  lemma {:induction false} BuildTotals(keys: seq<string>, counts: map<string, nat>, includeOptional: bool, sectors: seq<string>, o: Obligation)
    requires forall k :: k in keys ==> k in counts && EncodesKey(k)
    ensures TotalOf(BuildViolations(keys, counts, includeOptional).1, o)
         == MatrixSum(o, includeOptional, p => SumKeys(All(p, sectors), keys, counts))
  {
    if keys != [] {
      BuildTotals(keys[..|keys|-1], counts, includeOptional, sectors, o);
      KeyTotal(keys[|keys|-1], counts[keys[|keys|-1]], includeOptional, sectors, o);
    }
  }

  /** What a selector may see of the list the jurisdiction matrix shows. */
  function ShownCount(o: Obligation, includeOptional: bool, n: nat): nat {
    if Shown(Text(o), includeOptional) then n else 0
  }

  lemma {:induction false} BuildLists(sel: Selector, keys: seq<string>, counts: map<string, nat>, includeOptional: bool)
    requires forall k :: k in keys ==> k in counts
    requires sel.criterion.Some?
    ensures Listed(BuildViolations(keys, counts, includeOptional).0, sel.criterion.value, Text(sel.obligation))
         == ShownCount(sel.obligation, includeOptional, SumKeys(sel, keys, counts))
  {
    if keys != [] {
      BuildLists(sel, keys[..|keys|-1], counts, includeOptional);
      var (built, totals) := BuildViolations(keys[..|keys|-1], counts, includeOptional);
      var key := keys[|keys|-1];
      var (criterion, obligation) := DecodeKey(key);
      ListedAppend(built, Violation(criterion, obligation, counts[key]), sel.criterion.value, Text(sel.obligation));
    }
  }

  lemma GroupTotal(counts: OMap<string, nat>, includeOptional: bool, sectors: seq<string>, o: Obligation)
    requires counts.Valid() && Encodes(counts)
    ensures TotalOf(BuildViolations(counts.keys, counts.vals, includeOptional).1, o)
         == MatrixSum(o, includeOptional, p => TallySum(All(p, sectors), counts))
  {
    BuildTotals(counts.keys, counts.vals, includeOptional, sectors, o);
    forall p: Obligation { SumKeysIsSumOver(All(p, sectors), counts.keys, counts.vals); }
  }

  lemma {:induction false} RegulationTotals(db: Db, keys: seq<string>, groups: map<string, Group>, includeOptional: bool, sectors: seq<string>,
                                            o: Obligation)
    requires forall k :: k in keys ==> k in groups && groups[k].violations.Valid() && Encodes(groups[k].violations)
    ensures TotalOf(BuildRegulations(db, keys, groups, includeOptional).1, o)
         == MatrixSum(o, includeOptional, p => SumOver(keys, groups, GroupWeight(All(p, sectors))))
  {
    if keys != [] {
      RegulationTotals(db, keys[..|keys|-1], groups, includeOptional, sectors, o);
      GroupTotal(groups[keys[|keys|-1]].violations, includeOptional, sectors, o);
    }
  }

  /** The totals of a matrix entry are numbers of (row, issue) pairs. "Optional" also counts the excluded rows. */
  lemma JurisdictionTotals(db: Db, id: Id, relevant: seq<Requirement>, issues: seq<ParsedIssue>, sectors: seq<string>, includeOptional: bool)
    ensures var entry := JurisdictionEntry(db, id, relevant, issues, sectors, includeOptional);
      && entry.mandatoryViolations == Count(db, All(Mandatory, sectors), relevant, issues)
      && entry.recommendedViolations == Count(db, All(Recommended, sectors), relevant, issues)
      && entry.optionalViolations == (if includeOptional then Count(db, All(Optional, sectors), relevant, issues) else 0)
                                     + Count(db, All(Excluded, sectors), relevant, issues)
      && (entry.status == Fail <==> Count(db, All(Mandatory, sectors), relevant, issues) > 0)
  {
    var groups := Groups(db, relevant, issues, sectors);
    GroupsAreValid(db, relevant, issues, sectors);
    GroupsEncode(db, relevant, issues, sectors);
    forall p: Obligation
      ensures SumOver(groups.keys, groups.vals, GroupWeight(All(p, sectors))) == Count(db, All(p, sectors), relevant, issues)
    {
      GroupsCount(db, All(p, sectors), relevant, issues);
    }
    RegulationTotals(db, groups.keys, groups.vals, includeOptional, sectors, Mandatory);
    RegulationTotals(db, groups.keys, groups.vals, includeOptional, sectors, Recommended);
    RegulationTotals(db, groups.keys, groups.vals, includeOptional, sectors, Optional);
  }

  /** What a matrix entry lists for one regulation, criterion and obligation. */
  function ListedFor(results: seq<RegulationResult>, regulationId: string, criterion: string, obligation: string): nat {
    if results == [] then 0 else
    ListedFor(results[..|results|-1], regulationId, criterion, obligation)
    + var r := results[|results|-1]; if r.regulationId == regulationId then Listed(r.violations, criterion, obligation) else 0
  }

  lemma {:induction false} BuildListsFor(db: Db, sel: Selector, keys: seq<string>, groups: map<string, Group>, includeOptional: bool)
    requires forall k :: k in keys ==> k in groups && groups[k].violations.Valid()
    requires sel.criterion.Some? && sel.regulation.Some?
    ensures ListedFor(BuildRegulations(db, keys, groups, includeOptional).0, sel.regulation.value, sel.criterion.value, Text(sel.obligation))
         == ShownCount(sel.obligation, includeOptional, SumOver(keys, groups, GroupWeight(sel)))
  {
    if keys != [] {
      var front, k := keys[..|keys|-1], keys[|keys|-1];
      BuildListsFor(db, sel, front, groups, includeOptional);
      var results := BuildRegulations(db, front, groups, includeOptional).0;
      var result := BuildRegulation(db, k, groups[k], includeOptional).0;
      assert (results + [result])[..|results|] == results;
      var counts := groups[k].violations;
      BuildLists(sel, counts.keys, counts.vals, includeOptional);
      SumKeysIsSumOver(sel, counts.keys, counts.vals);
    }
  }

  function At(o: Obligation, regulationId: string, criterion: string, sectors: seq<string>): Selector {
    Selector(o, Some(regulationId), Some(criterion), sectors, None)
  }

  /** The violations a matrix entry lists are counts of pairs, regulation by regulation and criterion by criterion. */
  lemma JurisdictionLists(db: Db, id: Id, relevant: seq<Requirement>, issues: seq<ParsedIssue>, sectors: seq<string>, includeOptional: bool,
                          regulationId: string, criterion: string, o: Obligation)
    ensures ListedFor(JurisdictionEntry(db, id, relevant, issues, sectors, includeOptional).regulations, regulationId, criterion, Text(o))
         == ShownCount(o, includeOptional, Count(db, At(o, regulationId, criterion, sectors), relevant, issues))
  {
    var groups := Groups(db, relevant, issues, sectors);
    GroupsAreValid(db, relevant, issues, sectors);
    BuildListsFor(db, At(o, regulationId, criterion, sectors), groups.keys, groups.vals, includeOptional);
    GroupsCount(db, At(o, regulationId, criterion, sectors), relevant, issues);
  }

  ghost predicate FailsFor(results: seq<RegulationResult>, regulationId: string) {
    exists r :: r in results && r.regulationId == regulationId && r.status == Fail
  }

  function MandatoryOf(regulationId: string, sectors: seq<string>): Selector {
    Selector(Mandatory, Some(regulationId), None, sectors, None)
  }

  lemma {:induction false} BuildVerdicts(db: Db, regulationId: string, keys: seq<string>, groups: map<string, Group>, includeOptional: bool,
                                         sectors: seq<string>)
    requires forall k :: k in keys ==> k in groups && groups[k].violations.Valid() && Encodes(groups[k].violations)
    ensures FailsFor(BuildRegulations(db, keys, groups, includeOptional).0, regulationId)
        <==> SumOver(keys, groups, GroupWeight(MandatoryOf(regulationId, sectors))) > 0
  {
    if keys != [] {
      var front, k := keys[..|keys|-1], keys[|keys|-1];
      BuildVerdicts(db, regulationId, front, groups, includeOptional, sectors);
      var results := BuildRegulations(db, front, groups, includeOptional).0;
      var (result, totals) := BuildRegulation(db, k, groups[k], includeOptional);
      var counts := groups[k].violations;
      GroupTotal(counts, includeOptional, sectors, Mandatory);
      SameWeights(All(Mandatory, sectors), MandatoryOf(regulationId, sectors), counts.keys, counts.vals);
      assert result in results + [result];
      assert forall r :: r in results + [result] <==> r in results || r == result;
    }
  }

  lemma {:induction false} SameWeights(s: Selector, t: Selector, keys: seq<string>, counts: map<string, nat>)
    requires forall k :: k in keys ==> k in counts
    requires s.obligation == t.obligation && s.criterion == t.criterion
    ensures SumOver(keys, counts, KeyWeight(s)) == SumOver(keys, counts, KeyWeight(t))
  {
    if keys != [] {
      SameWeights(s, t, keys[..|keys|-1], counts);
    }
  }

  lemma JurisdictionVerdict(db: Db, id: Id, relevant: seq<Requirement>, issues: seq<ParsedIssue>, sectors: seq<string>, includeOptional: bool,
                            regulationId: string)
    ensures FailsFor(JurisdictionEntry(db, id, relevant, issues, sectors, includeOptional).regulations, regulationId)
        <==> Count(db, MandatoryOf(regulationId, sectors), relevant, issues) > 0
  {
    var groups := Groups(db, relevant, issues, sectors);
    GroupsAreValid(db, relevant, issues, sectors);
    GroupsEncode(db, relevant, issues, sectors);
    BuildVerdicts(db, regulationId, groups.keys, groups.vals, includeOptional, sectors);
    GroupsCount(db, MandatoryOf(regulationId, sectors), relevant, issues);
  }

  // ---- The regulation matrix counts pairs ----------------------------------------------------

  function WeighViolation(criterion: string, obligation: string, v: Violation): nat {
    if v.wcagCriterion == criterion && v.obligation == obligation then v.issueCount else 0
  }

  ghost function ViolationWeight(criterion: string, obligation: string): (string, Violation) -> nat {
    (key: string, v: Violation) => WeighViolation(criterion, obligation, v)
  }

  lemma {:induction false} ListedIsSum(keys: seq<string>, vals: map<string, Violation>, criterion: string, obligation: string)
    requires forall k :: k in keys ==> k in vals
    ensures Listed(ValuesOf(keys, vals), criterion, obligation) == SumOver(keys, vals, ViolationWeight(criterion, obligation))
  {
    if keys != [] {
      ListedIsSum(keys[..|keys|-1], vals, criterion, obligation);
      ListedAppend(ValuesOf(keys[..|keys|-1], vals), vals[keys[|keys|-1]], criterion, obligation);
    }
  }

  /** Each stored violation sits under its own key. */
  ghost predicate KeyedByContent(m: OMap<string, Violation>) {
    m.Valid() && forall k :: k in m.vals ==> ':' !in m.vals[k].obligation && k == Key(m.vals[k].wcagCriterion, m.vals[k].obligation)
  }

  ghost function ViolationSum(m: OMap<string, Violation>, criterion: string, obligation: string): nat {
    if m.Valid() then SumOver(m.keys, m.vals, ViolationWeight(criterion, obligation)) else 0
  }

  lemma BumpKeepsContent(m: OMap<string, Violation>, c: string, oc: string)
    requires KeyedByContent(m) && ':' !in oc
    ensures KeyedByContent(BumpViolation(m, c, oc))
    ensures var key := Key(c, oc);
      key in m.vals ==> m.vals[key].wcagCriterion == c && m.vals[key].obligation == oc
  {
    var key := Key(c, oc);
    DecodeInvertsKey(c, oc);
    if key in m.vals {
      DecodeInvertsKey(m.vals[key].wcagCriterion, m.vals[key].obligation);
    }
  }

  lemma BumpViolationCounts(m: OMap<string, Violation>, c: string, oc: string, criterion: string, o: string)
    requires KeyedByContent(m) && ':' !in oc
    ensures ViolationSum(BumpViolation(m, c, oc), criterion, o) == ViolationSum(m, criterion, o) + if oc == o && c == criterion then 1 else 0
  {
    var key, w := Key(c, oc), ViolationWeight(criterion, o);
    BumpKeepsContent(m, c, oc);
    SumPut(m, key, BumpViolation(m, c, oc).vals[key], w);
  }

  /** Is an obligation counted by the regulation matrix at all? */
  predicate Visible(o: Obligation, includeOptional: bool) {
    o != Excluded && (includeOptional || o != Optional)
  }

  lemma {:induction false} TallyRowKeepsContent(t: RegulationTally, req: Requirement, issues: seq<ParsedIssue>, includeOptional: bool)
    requires KeyedByContent(t.violations)
    ensures KeyedByContent(TallyRow(t, req, issues, includeOptional).violations)
  {
    if issues != [] {
      var before := TallyRow(t, req, issues[..|issues|-1], includeOptional);
      TallyRowKeepsContent(t, req, issues[..|issues|-1], includeOptional);
      if Counted(req, issues[|issues|-1], includeOptional) {
        ObligationTexts(req.obligation, req.obligation);
        BumpKeepsContent(before.violations, issues[|issues|-1].criterion.value, Text(req.obligation));
      }
    }
  }

  lemma PicksWhatIsCounted(db: Db, req: Requirement, parsed: ParsedIssue, includeOptional: bool, criterion: string, o: Obligation)
    ensures Visible(o, includeOptional) && Picks(db, At(o, req.regulationId, criterion, []), req, parsed)
        <==> Counted(req, parsed, includeOptional) && req.obligation == o && parsed.criterion == Some(criterion)
  {
  }

  lemma TallyOneCounts(t: RegulationTally, req: Requirement, parsed: ParsedIssue, includeOptional: bool, criterion: string, o: Obligation)
    requires KeyedByContent(t.violations)
    ensures ViolationSum(TallyOne(t, req, parsed, includeOptional).violations, criterion, Text(o))
         == ViolationSum(t.violations, criterion, Text(o))
            + if Counted(req, parsed, includeOptional) && req.obligation == o && parsed.criterion == Some(criterion) then 1 else 0
  {
    if Counted(req, parsed, includeOptional) {
      ObligationTexts(req.obligation, o);
      BumpViolationCounts(t.violations, parsed.criterion.value, Text(req.obligation), criterion, Text(o));
    }
  }

  lemma {:induction false} TallyRowCounts(db: Db, t: RegulationTally, req: Requirement, issues: seq<ParsedIssue>, includeOptional: bool,
                                          criterion: string, o: Obligation)
    requires KeyedByContent(t.violations)
    ensures ViolationSum(TallyRow(t, req, issues, includeOptional).violations, criterion, Text(o))
         == ViolationSum(t.violations, criterion, Text(o))
            + if Visible(o, includeOptional) then CountRow(db, At(o, req.regulationId, criterion, []), req, issues) else 0
  {
    if issues != [] {
      var front, parsed := issues[..|issues|-1], issues[|issues|-1];
      TallyRowCounts(db, t, req, front, includeOptional, criterion, o);
      TallyRowKeepsContent(t, req, front, includeOptional);
      TallyOneCounts(TallyRow(t, req, front, includeOptional), req, parsed, includeOptional, criterion, o);
      PicksWhatIsCounted(db, req, parsed, includeOptional, criterion, o);
    }
  }

  lemma {:induction false} TallyRowsKeepContent(reqs: seq<Requirement>, issues: seq<ParsedIssue>, includeOptional: bool)
    ensures KeyedByContent(TallyRows(reqs, issues, includeOptional).violations)
  {
    if reqs != [] {
      TallyRowsKeepContent(reqs[..|reqs|-1], issues, includeOptional);
      TallyRowKeepsContent(TallyRows(reqs[..|reqs|-1], issues, includeOptional), reqs[|reqs|-1], issues, includeOptional);
    }
  }

  lemma TallyRowsSnoc(reqs: seq<Requirement>, req: Requirement, issues: seq<ParsedIssue>, includeOptional: bool)
    ensures TallyRows(reqs + [req], issues, includeOptional) == TallyRow(TallyRows(reqs, issues, includeOptional), req, issues, includeOptional)
  {
    assert (reqs + [req])[..|reqs|] == reqs;
  }

  lemma RegulationViewListsStep(db: Db, kept: seq<Requirement>, req: Requirement, issues: seq<ParsedIssue>, includeOptional: bool,
                                criterion: string, o: Obligation)
    ensures ViolationSum(TallyRows(kept + [req], issues, includeOptional).violations, criterion, Text(o))
         == ViolationSum(TallyRows(kept, issues, includeOptional).violations, criterion, Text(o))
            + if Visible(o, includeOptional) then CountRow(db, At(o, req.regulationId, criterion, []), req, issues) else 0
  {
    TallyRowsKeepContent(kept, issues, includeOptional);
    TallyRowsSnoc(kept, req, issues, includeOptional);
    TallyRowCounts(db, TallyRows(kept, issues, includeOptional), req, issues, includeOptional, criterion, o);
  }

  /** The kept rows list what the rows count. */
  ghost predicate ListsCount(db: Db, kept: seq<Requirement>, rows: seq<Requirement>, issues: seq<ParsedIssue>, includeOptional: bool,
                             regulationId: string, criterion: string, o: Obligation) {
    ViolationSum(TallyRows(kept, issues, includeOptional).violations, criterion, Text(o))
    == if Visible(o, includeOptional) then Count(db, At(o, regulationId, criterion, []), rows, issues) else 0
  }

  lemma ListsCountStep(db: Db, kept: seq<Requirement>, rows: seq<Requirement>, req: Requirement, issues: seq<ParsedIssue>, includeOptional: bool,
                       regulationId: string, criterion: string, o: Obligation)
    requires ListsCount(db, kept, rows, issues, includeOptional, regulationId, criterion, o)
    ensures ListsCount(db, if req.regulationId == regulationId then kept + [req] else kept, rows + [req], issues, includeOptional,
                       regulationId, criterion, o)
  {
    CountSnoc(db, At(o, regulationId, criterion, []), rows, req, issues);
    if req.regulationId == regulationId {
      RegulationViewListsStep(db, kept, req, issues, includeOptional, criterion, o);
    } else {
      NothingPicked(db, At(o, regulationId, criterion, []), req, issues);
    }
  }

  /** The violations a regulation entry lists are the visible pairs of its rows. */
  lemma {:induction false} RegulationViewLists(db: Db, rows: seq<Requirement>, issues: seq<ParsedIssue>, includeOptional: bool,
                                               regulationId: string, criterion: string, o: Obligation)
    ensures ListsCount(db, KeepRegulations(rows, {regulationId}), rows, issues, includeOptional, regulationId, criterion, o)
  {
    if rows != [] {
      var front, req := rows[..|rows|-1], rows[|rows|-1];
      RegulationViewLists(db, front, issues, includeOptional, regulationId, criterion, o);
      ListsCountStep(db, KeepRegulations(front, {regulationId}), front, req, issues, includeOptional, regulationId, criterion, o);
      assert front + [req] == rows;
    }
  }

  function OfObligation(o: Obligation, regulationId: string): Selector {
    Selector(o, Some(regulationId), None, [], None)
  }

  lemma {:induction false} TallyRowTotals(db: Db, t: RegulationTally, req: Requirement, issues: seq<ParsedIssue>, includeOptional: bool, o: Obligation)
    ensures TotalOf(TallyRow(t, req, issues, includeOptional).totals, o)
         == TotalOf(t.totals, o) + if Visible(o, includeOptional) then CountRow(db, OfObligation(o, req.regulationId), req, issues) else 0
  {
    if issues != [] {
      TallyRowTotals(db, t, req, issues[..|issues|-1], includeOptional, o);
      forall o' ensures Text(req.obligation) == Text(o') <==> req.obligation == o' { ObligationTexts(req.obligation, o'); }
    }
  }

  lemma RegulationViewTotalsStep(db: Db, kept: seq<Requirement>, req: Requirement, issues: seq<ParsedIssue>, includeOptional: bool, o: Obligation)
    ensures TotalOf(TallyRows(kept + [req], issues, includeOptional).totals, o)
         == TotalOf(TallyRows(kept, issues, includeOptional).totals, o)
            + if Visible(o, includeOptional) then CountRow(db, OfObligation(o, req.regulationId), req, issues) else 0
  {
    TallyRowsSnoc(kept, req, issues, includeOptional);
    TallyRowTotals(db, TallyRows(kept, issues, includeOptional), req, issues, includeOptional, o);
  }

  /** The kept rows total what the rows count. */
  ghost predicate TotalsCount(db: Db, kept: seq<Requirement>, rows: seq<Requirement>, issues: seq<ParsedIssue>, includeOptional: bool,
                              regulationId: string, o: Obligation) {
    TotalOf(TallyRows(kept, issues, includeOptional).totals, o)
    == if Visible(o, includeOptional) then Count(db, OfObligation(o, regulationId), rows, issues) else 0
  }

  lemma TotalsCountStep(db: Db, kept: seq<Requirement>, rows: seq<Requirement>, req: Requirement, issues: seq<ParsedIssue>, includeOptional: bool,
                        regulationId: string, o: Obligation)
    requires TotalsCount(db, kept, rows, issues, includeOptional, regulationId, o)
    ensures TotalsCount(db, if req.regulationId == regulationId then kept + [req] else kept, rows + [req], issues, includeOptional,
                        regulationId, o)
  {
    CountSnoc(db, OfObligation(o, regulationId), rows, req, issues);
    if req.regulationId == regulationId {
      RegulationViewTotalsStep(db, kept, req, issues, includeOptional, o);
    } else {
      NothingPicked(db, OfObligation(o, regulationId), req, issues);
    }
  }

  /** The totals of a regulation entry are the visible pairs of its rows. */
  lemma {:induction false} RegulationViewTotals(db: Db, rows: seq<Requirement>, issues: seq<ParsedIssue>, includeOptional: bool,
                                                regulationId: string, o: Obligation)
    ensures TotalsCount(db, KeepRegulations(rows, {regulationId}), rows, issues, includeOptional, regulationId, o)
  {
    if rows != [] {
      var front, req := rows[..|rows|-1], rows[|rows|-1];
      RegulationViewTotals(db, front, issues, includeOptional, regulationId, o);
      TotalsCountStep(db, KeepRegulations(front, {regulationId}), front, req, issues, includeOptional, regulationId, o);
      assert front + [req] == rows;
    }
  }

  // ---- Restricting the rows ------------------------------------------------------------------

  lemma CountSnoc(db: Db, sel: Selector, reqs: seq<Requirement>, req: Requirement, issues: seq<ParsedIssue>)
    ensures Count(db, sel, reqs + [req], issues) == Count(db, sel, reqs, issues) + CountRow(db, sel, req, issues)
  {
    assert (reqs + [req])[..|reqs|] == reqs;
  }

  /** Filtering the rows by a hierarchy is selecting by it. */
  lemma {:induction false} CountInHierarchy(db: Db, sel: Selector, reqs: seq<Requirement>, issues: seq<ParsedIssue>, hierIds: set<Id>)
    requires sel.hierarchy.None?
    ensures Count(db, sel, InHierarchy(reqs, hierIds), issues) == Count(db, sel.(hierarchy := Some(hierIds)), reqs, issues)
  {
    if reqs != [] {
      var front, req := reqs[..|reqs|-1], reqs[|reqs|-1];
      CountInHierarchy(db, sel, front, issues, hierIds);
      if req.jurisdictionId in hierIds {
        CountSnoc(db, sel, InHierarchy(front, hierIds), req, issues);
        RowCountsAlike(db, sel, sel.(hierarchy := Some(hierIds)), req, issues);
      } else {
        NothingPicked(db, sel.(hierarchy := Some(hierIds)), req, issues);
      }
    }
  }

  lemma {:induction false} RowCountsAlike(db: Db, s: Selector, t: Selector, req: Requirement, issues: seq<ParsedIssue>)
    requires PicksRow(db, s, req) == PicksRow(db, t, req) && s.criterion == t.criterion
    ensures CountRow(db, s, req, issues) == CountRow(db, t, req, issues)
  {
    if issues != [] {
      RowCountsAlike(db, s, t, req, issues[..|issues|-1]);
    }
  }

  lemma {:induction false} CountsAlike(db: Db, s: Selector, t: Selector, reqs: seq<Requirement>, issues: seq<ParsedIssue>)
    requires s.criterion == t.criterion && forall r :: r in reqs ==> PicksRow(db, s, r) == PicksRow(db, t, r)
    ensures Count(db, s, reqs, issues) == Count(db, t, reqs, issues)
  {
    if reqs != [] {
      assert reqs[|reqs|-1] in reqs;
      CountsAlike(db, s, t, reqs[..|reqs|-1], issues);
      RowCountsAlike(db, s, t, reqs[|reqs|-1], issues);
    }
  }

  /** A queried row carries the home jurisdiction of its regulation. */
  lemma {:induction false} RowsAreJoined(db: Db, rows: seq<RequirementRow>, ids: set<Id>, criteria: set<string>, orgId: Option<string>)
    ensures forall r :: r in SelectRows(db, rows, ids, criteria, orgId) ==>
              r.regulationId in db.regulations && r.jurisdictionId == db.regulations[r.regulationId].jurisdictionId && r.jurisdictionId in ids
  {
    if rows != [] {
      RowsAreJoined(db, rows[..|rows|-1], ids, criteria, orgId);
    }
  }

  // ---- Reading a response --------------------------------------------------------------------

  lemma {:induction false} MatrixAt(db: Db, request: Request, issues: seq<ParsedIssue>, ids: seq<Id>, id: Id)
    ensures id in Matrix(db, request, issues, ids).vals <==> id in ids && id != PROTO
    ensures id in ids && id != PROTO ==> Matrix(db, request, issues, ids).vals[id] == EntryOf(db, request, issues, id)
  {
    if ids != [] {
      var front, last := ids[..|ids|-1], ids[|ids|-1];
      MatrixAt(db, request, issues, front, id);
      InFrontOrLast(ids, id);
      assert last != PROTO ==>
        Matrix(db, request, issues, ids).vals == Matrix(db, request, issues, front).vals[last := EntryOf(db, request, issues, last)];
    }
  }

  lemma {:induction false} RegulationMatrixAt(db: Db, request: Request, issues: seq<ParsedIssue>, ids: seq<string>, id: string)
    ensures id in RegulationMatrix(db, request, issues, ids).vals <==> id in ids && id in db.regulations && id != PROTO
    ensures id in ids && id in db.regulations && id != PROTO ==>
      RegulationMatrix(db, request, issues, ids).vals[id]
      == RegulationView(id, db.regulations[id], KeepRegulations(QueriedRows(db, request, issues), {id}), issues, request.includeOptional)
  {
    if ids != [] {
      RegulationMatrixAt(db, request, issues, ids[..|ids|-1], id);
      InFrontOrLast(ids, id);
    }
  }

  // ---- Main results --------------------------------------------------------------------------

  /** The annotations of one obligation on one issue whose jurisdiction lies in a hierarchy. */
  function Annotations(regs: seq<Requirement>, o: Obligation, hierIds: set<Id>): nat {
    if regs == [] then 0 else
    Annotations(regs[..|regs|-1], o, hierIds)
    + if regs[|regs|-1].obligation == o && regs[|regs|-1].jurisdictionId in hierIds then 1 else 0
  }

  function AllAnnotations(annotated: seq<AnnotatedIssue>, o: Obligation, hierIds: set<Id>): nat {
    if annotated == [] then 0 else
    AllAnnotations(annotated[..|annotated|-1], o, hierIds) + Annotations(annotated[|annotated|-1].regulations, o, hierIds)
  }

  lemma CountRowSnoc(db: Db, sel: Selector, req: Requirement, issues: seq<ParsedIssue>, parsed: ParsedIssue)
    ensures CountRow(db, sel, req, issues + [parsed]) == CountRow(db, sel, req, issues) + if Picks(db, sel, req, parsed) then 1 else 0
  {
    assert (issues + [parsed])[..|issues|] == issues;
  }

  lemma AnnotationsSnoc(regs: seq<Requirement>, req: Requirement, o: Obligation, hierIds: set<Id>)
    ensures Annotations(regs + [req], o, hierIds)
         == Annotations(regs, o, hierIds) + if req.obligation == o && req.jurisdictionId in hierIds then 1 else 0
  {
    assert (regs + [req])[..|regs|] == regs;
  }

  lemma MatchesPicks(db: Db, parsed: ParsedIssue, req: Requirement, sectors: seq<string>, o: Obligation, hierIds: set<Id>)
    ensures Picks(db, Selector(o, None, None, sectors, Some(hierIds)), req, parsed)
        <==> Matches(db, parsed, req, sectors) && req.obligation == o && req.jurisdictionId in hierIds
  {
  }

  lemma FindSnoc(db: Db, parsed: ParsedIssue, front: seq<Requirement>, req: Requirement, sectors: seq<string>)
    ensures FindMatching(db, parsed, front + [req], sectors)
         == FindMatching(db, parsed, front, sectors) + if Matches(db, parsed, req, sectors) then [req] else []
  {
    assert (front + [req])[..|front|] == front;
  }

  /** One more row in the issue-major filter. */
  lemma OneMoreRow(db: Db, parsed: ParsedIssue, front: seq<Requirement>, req: Requirement, sectors: seq<string>, o: Obligation, hierIds: set<Id>)
    ensures Annotations(FindMatching(db, parsed, front + [req], sectors), o, hierIds)
         == Annotations(FindMatching(db, parsed, front, sectors), o, hierIds)
            + if Picks(db, Selector(o, None, None, sectors, Some(hierIds)), req, parsed) then 1 else 0
  {
    var found := FindMatching(db, parsed, front, sectors);
    FindSnoc(db, parsed, front, req, sectors);
    MatchesPicks(db, parsed, req, sectors, o, hierIds);
    AnnotationsSnoc(found, req, o, hierIds);
    assert found + [] == found;
  }

  /** Exchanging the sums: one more issue adds the rows that pick it. */
  ghost predicate Exchanged(db: Db, sectors: seq<string>, reqs: seq<Requirement>, issues: seq<ParsedIssue>, parsed: ParsedIssue,
                            o: Obligation, hierIds: set<Id>) {
    var sel := Selector(o, None, None, sectors, Some(hierIds));
    Count(db, sel, reqs, issues + [parsed]) == Count(db, sel, reqs, issues) + Annotations(FindMatching(db, parsed, reqs, sectors), o, hierIds)
  }

  lemma ExchangedStep(db: Db, sectors: seq<string>, front: seq<Requirement>, req: Requirement, issues: seq<ParsedIssue>, parsed: ParsedIssue,
                      o: Obligation, hierIds: set<Id>)
    requires Exchanged(db, sectors, front, issues, parsed, o, hierIds)
    ensures Exchanged(db, sectors, front + [req], issues, parsed, o, hierIds)
  {
    var sel := Selector(o, None, None, sectors, Some(hierIds));
    CountSnoc(db, sel, front, req, issues);
    CountSnoc(db, sel, front, req, issues + [parsed]);
    CountRowSnoc(db, sel, req, issues, parsed);
    OneMoreRow(db, parsed, front, req, sectors, o, hierIds);
  }

  lemma {:induction false} OneMoreIssue(db: Db, sectors: seq<string>, reqs: seq<Requirement>, issues: seq<ParsedIssue>, parsed: ParsedIssue,
                                        o: Obligation, hierIds: set<Id>)
    ensures Exchanged(db, sectors, reqs, issues, parsed, o, hierIds)
  {
    if reqs != [] {
      var front, req := reqs[..|reqs|-1], reqs[|reqs|-1];
      OneMoreIssue(db, sectors, front, issues, parsed, o, hierIds);
      ExchangedStep(db, sectors, front, req, issues, parsed, o, hierIds);
      assert front + [req] == reqs;
    }
  }

  lemma {:induction false} AnnotationsCount(db: Db, request: Request, reqs: seq<Requirement>, issues: seq<ParsedIssue>,
                                            annotated: seq<AnnotatedIssue>, o: Obligation, hierIds: set<Id>)
    requires request.regulations == []
    requires |annotated| == |issues| && forall i :: 0 <= i < |issues| ==> annotated[i] == Annotate(db, request, issues[i], reqs)
    ensures AllAnnotations(annotated, o, hierIds) == Count(db, Selector(o, None, None, request.sectors, Some(hierIds)), reqs, issues)
  {
    if issues == [] {
      NoIssues(db, Selector(o, None, None, request.sectors, Some(hierIds)), reqs);
    } else {
      var front, parsed := issues[..|issues|-1], issues[|issues|-1];
      AnnotationsCount(db, request, reqs, front, annotated[..|issues|-1], o, hierIds);
      OneMoreIssue(db, request.sectors, reqs, front, parsed, o, hierIds);
      assert front + [parsed] == issues;
    }
  }

  lemma {:induction false} NoIssues(db: Db, sel: Selector, reqs: seq<Requirement>)
    ensures Count(db, sel, reqs, []) == 0
  {
    if reqs != [] {
      NoIssues(db, sel, reqs[..|reqs|-1]);
    }
  }

  /** Double counting: with no named regulations, the annotations within a jurisdiction's hierarchy add up to its matrix entry. */
  lemma ViewsAgree(parse: CodeParser, request: Request, db: Db, response: Response, id: Id)
    requires Answers(response, parse, request, db)
    requires request.regulations == [] && id in request.jurisdictions
    ensures id in response.matrix.vals <==> id != PROTO
    ensures var hierIds := Closure(db.jurisdictions, {id}); id in response.matrix.vals ==>
      && AllAnnotations(response.annotatedIssues, Mandatory, hierIds) == response.matrix.vals[id].mandatoryViolations
      && AllAnnotations(response.annotatedIssues, Recommended, hierIds) == response.matrix.vals[id].recommendedViolations
      && (response.matrix.vals[id].status == Fail <==> AllAnnotations(response.annotatedIssues, Mandatory, hierIds) > 0)
  {
    var issues := ParseIssues(parse, request.codes);
    var rows, hierIds := QueriedRows(db, request, issues), Closure(db.jurisdictions, {id});
    MatrixAt(db, request, issues, request.jurisdictions, id);
    JurisdictionTotals(db, id, InHierarchy(rows, hierIds), issues, request.sectors, request.includeOptional);
    CountInHierarchy(db, All(Mandatory, request.sectors), rows, issues, hierIds);
    CountInHierarchy(db, All(Recommended, request.sectors), rows, issues, hierIds);
    AnnotationsCount(db, request, rows, issues, response.annotatedIssues, Mandatory, hierIds);
    AnnotationsCount(db, request, rows, issues, response.annotatedIssues, Recommended, hierIds);
  }

  /** Filtering a wide query by a narrower jurisdiction set is the narrow query. */
  lemma {:induction false} NarrowQuery(db: Db, rows: seq<RequirementRow>, wide: set<Id>, narrow: set<Id>, criteria: set<string>, orgId: Option<string>)
    requires narrow <= wide
    ensures InHierarchy(SelectRows(db, rows, wide, criteria, orgId), narrow) == SelectRows(db, rows, narrow, criteria, orgId)
  {
    if rows != [] {
      var front, row := rows[..|rows|-1], rows[|rows|-1];
      NarrowQuery(db, front, wide, narrow, criteria, orgId);
      var found := SelectRows(db, front, wide, criteria, orgId);
      if RowSelected(db, row, wide, criteria, orgId) {
        assert (found + [Join(db, row)])[..|found|] == found;
      } else {
        assert found + [] == found;
      }
    }
  }

  /** The entry of one jurisdiction depends on its own hierarchy only. */
  lemma EntryIsLocal(db: Db, request: Request, issues: seq<ParsedIssue>, id: Id)
    requires id in request.jurisdictions
    ensures InHierarchy(QueriedRows(db, request, issues), Closure(db.jurisdictions, {id}))
         == FindRequirements(db, Closure(db.jurisdictions, {id}), Criteria(issues), request.orgId)
  {
    var hierIds := Closure(db.jurisdictions, {id});
    assert {id} <= Widened(db, request);
    ClosureMonotone(db.jurisdictions, {id}, Elements(request.jurisdictions) + Homes(db, request.regulations));
    assert id in hierIds && id in Widened(db, request);
    NarrowQuery(db, db.requirements, Widened(db, request), hierIds, Criteria(issues), request.orgId);
  }

  /** Batch independence: each jurisdiction gets the entry it would get if it were the whole request. */
  lemma BatchIndependence(parse: CodeParser, request: Request, db: Db, response: Response, id: Id, alone: Response)
    requires Answers(response, parse, request, db)
    requires id in request.jurisdictions
    requires Answers(alone, parse, request.(jurisdictions := [id], regulations := []), db)
    ensures id in response.matrix.vals <==> id != PROTO
    ensures id in alone.matrix.vals <==> id != PROTO
    ensures id != PROTO ==> response.matrix.vals[id] == alone.matrix.vals[id]
  {
    var issues := ParseIssues(parse, request.codes);
    var narrow := request.(jurisdictions := [id], regulations := []);
    MatrixAt(db, request, issues, request.jurisdictions, id);
    MatrixAt(db, narrow, issues, narrow.jurisdictions, id);
    EntryIsLocal(db, request, issues, id);
    EntryIsLocal(db, narrow, issues, id);
  }

  /** What a matrix entry lists of a regulation at home in its hierarchy. */
  lemma JurisdictionSideLists(db: Db, request: Request, issues: seq<ParsedIssue>, id: Id, regulationId: string, criterion: string, o: Obligation)
    requires regulationId in db.regulations && db.regulations[regulationId].jurisdictionId in Closure(db.jurisdictions, {id})
    ensures ListedFor(EntryOf(db, request, issues, id).regulations, regulationId, criterion, Text(o))
         == ShownCount(o, request.includeOptional,
              if RegulationMatchesSectors(db.regulations[regulationId].sectors, request.sectors)
              then Count(db, At(o, regulationId, criterion, []), QueriedRows(db, request, issues), issues) else 0)
  {
    var rows, hierIds := QueriedRows(db, request, issues), Closure(db.jurisdictions, {id});
    var wide, narrow := At(o, regulationId, criterion, []), At(o, regulationId, criterion, request.sectors);
    JurisdictionLists(db, id, InHierarchy(rows, hierIds), issues, request.sectors, request.includeOptional, regulationId, criterion, o);
    CountInHierarchy(db, narrow, rows, issues, hierIds);
    SectorsDecide(db, request, rows, issues, narrow, wide, hierIds);
  }

  /** What the regulation matrix lists of a regulation. */
  lemma RegulationSideLists(db: Db, request: Request, issues: seq<ParsedIssue>, regulationId: string, criterion: string, o: Obligation)
    requires regulationId in db.regulations
    ensures var rows := QueriedRows(db, request, issues);
      Listed(RegulationView(regulationId, db.regulations[regulationId], KeepRegulations(rows, {regulationId}), issues,
                            request.includeOptional).violatedRequirements, criterion, Text(o))
      == if Visible(o, request.includeOptional) then Count(db, At(o, regulationId, criterion, []), rows, issues) else 0
  {
    var rows := QueriedRows(db, request, issues);
    RegulationViewLists(db, rows, issues, request.includeOptional, regulationId, criterion, o);
    TallyRowsKeepContent(KeepRegulations(rows, {regulationId}), issues, request.includeOptional);
    var t := TallyRows(KeepRegulations(rows, {regulationId}), issues, request.includeOptional);
    ListedIsSum(t.violations.keys, t.violations.vals, criterion, Text(o));
  }

  /** The two matrices list the same violations of a named regulation at home in a jurisdiction's hierarchy,
      unless the sector filter (which only the jurisdiction matrix applies) drops the regulation. */
  lemma RegulationViewsAgree(parse: CodeParser, request: Request, db: Db, response: Response, id: Id, regulationId: string,
                             criterion: string, o: Obligation)
    requires Answers(response, parse, request, db)
    requires id in request.jurisdictions && regulationId in request.regulations && regulationId in db.regulations
    requires db.regulations[regulationId].jurisdictionId in Closure(db.jurisdictions, {id})
    requires o != Excluded
    ensures id in response.matrix.vals <==> id != PROTO
    ensures regulationId in response.regulationMatrix.vals <==> regulationId != PROTO
    ensures id != PROTO && regulationId != PROTO ==>
      ListedFor(response.matrix.vals[id].regulations, regulationId, criterion, Text(o))
         == if RegulationMatchesSectors(db.regulations[regulationId].sectors, request.sectors)
            then Listed(response.regulationMatrix.vals[regulationId].violatedRequirements, criterion, Text(o)) else 0
  {
    var issues := ParseIssues(parse, request.codes);
    MatrixAt(db, request, issues, request.jurisdictions, id);
    RegulationMatrixAt(db, request, issues, request.regulations, regulationId);
    JurisdictionSideLists(db, request, issues, id, regulationId, criterion, o);
    RegulationSideLists(db, request, issues, regulationId, criterion, o);
    ObligationTexts(o, Optional);
  }

  /** On "excluded" the two lists agree if and only if no such pair passes the sector filter: the regulation matrix lists none. */
  lemma ExcludedListsAgreeIff(parse: CodeParser, request: Request, db: Db, response: Response, id: Id, regulationId: string, criterion: string)
    requires Answers(response, parse, request, db)
    requires id in request.jurisdictions && regulationId in request.regulations && regulationId in db.regulations
    requires db.regulations[regulationId].jurisdictionId in Closure(db.jurisdictions, {id})
    ensures id != PROTO && regulationId != PROTO ==>
      id in response.matrix.vals && regulationId in response.regulationMatrix.vals
    ensures id != PROTO && regulationId != PROTO ==>
      var issues := ParseIssues(parse, request.codes);
      ListedFor(response.matrix.vals[id].regulations, regulationId, criterion, Text(Excluded))
        == Listed(response.regulationMatrix.vals[regulationId].violatedRequirements, criterion, Text(Excluded))
      <==> !RegulationMatchesSectors(db.regulations[regulationId].sectors, request.sectors)
           || Count(db, At(Excluded, regulationId, criterion, []), QueriedRows(db, request, issues), issues) == 0
  {
    var issues := ParseIssues(parse, request.codes);
    MatrixAt(db, request, issues, request.jurisdictions, id);
    RegulationMatrixAt(db, request, issues, request.regulations, regulationId);
    JurisdictionSideLists(db, request, issues, id, regulationId, criterion, Excluded);
    RegulationSideLists(db, request, issues, regulationId, criterion, Excluded);
    ObligationTexts(Excluded, Optional);
  }

  lemma {:induction false} NoneCounted(db: Db, sel: Selector, reqs: seq<Requirement>, issues: seq<ParsedIssue>)
    requires forall r :: r in reqs ==> !PicksRow(db, sel, r)
    ensures Count(db, sel, reqs, issues) == 0
  {
    if reqs != [] {
      assert reqs[|reqs|-1] in reqs;
      NoneCounted(db, sel, reqs[..|reqs|-1], issues);
      NothingPicked(db, sel, reqs[|reqs|-1], issues);
    }
  }

  /** For one regulation the hierarchy and the sector filter are all-or-nothing. */
  lemma SectorsDecide(db: Db, request: Request, rows: seq<Requirement>, issues: seq<ParsedIssue>, narrow: Selector, wide: Selector, hierIds: set<Id>)
    requires rows == QueriedRows(db, request, issues)
    requires wide.regulation.Some? && wide.regulation.value in db.regulations && wide.hierarchy.None? && wide.sectors == []
    requires narrow == wide.(sectors := request.sectors)
    requires db.regulations[wide.regulation.value].jurisdictionId in hierIds
    ensures Count(db, narrow.(hierarchy := Some(hierIds)), rows, issues)
         == if RegulationMatchesSectors(db.regulations[wide.regulation.value].sectors, request.sectors) then Count(db, wide, rows, issues) else 0
  {
    RowsAreJoined(db, db.requirements, Widened(db, request), Criteria(issues), request.orgId);
    if RegulationMatchesSectors(db.regulations[wide.regulation.value].sectors, request.sectors) {
      CountsAlike(db, narrow.(hierarchy := Some(hierIds)), wide, rows, issues);
    } else {
      NoneCounted(db, narrow.(hierarchy := Some(hierIds)), rows, issues);
    }
  }

  lemma JurisdictionSideFails(db: Db, request: Request, issues: seq<ParsedIssue>, id: Id, regulationId: string)
    requires regulationId in db.regulations && db.regulations[regulationId].jurisdictionId in Closure(db.jurisdictions, {id})
    ensures FailsFor(EntryOf(db, request, issues, id).regulations, regulationId)
        <==> RegulationMatchesSectors(db.regulations[regulationId].sectors, request.sectors)
             && Count(db, OfObligation(Mandatory, regulationId), QueriedRows(db, request, issues), issues) > 0
  {
    var rows, hierIds := QueriedRows(db, request, issues), Closure(db.jurisdictions, {id});
    JurisdictionVerdict(db, id, InHierarchy(rows, hierIds), issues, request.sectors, request.includeOptional, regulationId);
    CountInHierarchy(db, MandatoryOf(regulationId, request.sectors), rows, issues, hierIds);
    SectorsDecide(db, request, rows, issues, MandatoryOf(regulationId, request.sectors), OfObligation(Mandatory, regulationId), hierIds);
  }

  lemma RegulationSideFails(db: Db, reg: Regulation, rows: seq<Requirement>, issues: seq<ParsedIssue>, includeOptional: bool, regulationId: string)
    ensures RegulationView(regulationId, reg, KeepRegulations(rows, {regulationId}), issues, includeOptional).status == Fail
        <==> Count(db, OfObligation(Mandatory, regulationId), rows, issues) > 0
  {
    RegulationViewTotals(db, rows, issues, includeOptional, regulationId, Mandatory);
  }

  /** The two matrices give the same "fail" verdict on such a regulation, again up to the sector filter. */
  lemma VerdictsAgree(parse: CodeParser, request: Request, db: Db, response: Response, id: Id, regulationId: string)
    requires Answers(response, parse, request, db)
    requires id in request.jurisdictions && regulationId in request.regulations && regulationId in db.regulations
    requires db.regulations[regulationId].jurisdictionId in Closure(db.jurisdictions, {id})
    ensures id in response.matrix.vals <==> id != PROTO
    ensures regulationId in response.regulationMatrix.vals <==> regulationId != PROTO
    ensures id != PROTO && regulationId != PROTO ==>
      (FailsFor(response.matrix.vals[id].regulations, regulationId) <==>
       RegulationMatchesSectors(db.regulations[regulationId].sectors, request.sectors)
       && response.regulationMatrix.vals[regulationId].status == Fail)
  {
    var issues := ParseIssues(parse, request.codes);
    MatrixAt(db, request, issues, request.jurisdictions, id);
    RegulationMatrixAt(db, request, issues, request.regulations, regulationId);
    JurisdictionSideFails(db, request, issues, id, regulationId);
    RegulationSideFails(db, db.regulations[regulationId], QueriedRows(db, request, issues), issues, request.includeOptional, regulationId);
  }

  /** The summary splits the distinct requested jurisdictions into passing and failing ones. */
  lemma {:induction false} SummarySplits(results: seq<JurisdictionResult>)
    requires forall r :: r in results ==> r.status == (if r.mandatoryViolations > 0 then Fail else Pass)
    ensures var s := Summarize(results);
      && s.totalJurisdictions == |results| == s.passing + s.failing
      && (s.failing == 0 <==> s.totalMandatoryViolations == 0)
  {
    if results != [] {
      assert results[|results|-1] in results;
      SummarySplits(results[..|results|-1]);
    }
  }

  lemma {:induction false} ValuesAt<V>(keys: seq<string>, vals: map<string, V>)
    requires forall k :: k in keys ==> k in vals
    ensures |ValuesOf(keys, vals)| == |keys|
    ensures forall v :: v in ValuesOf(keys, vals) ==> exists k :: k in keys && vals[k] == v
  {
    if keys != [] {
      ValuesAt(keys[..|keys|-1], vals);
      assert keys[|keys|-1] in keys;
    }
  }

  lemma EntriesHaveVerdicts(parse: CodeParser, request: Request, db: Db, response: Response)
    requires Answers(response, parse, request, db)
    ensures forall r :: r in ValuesOf(response.matrix.keys, response.matrix.vals) ==>
              r.status == if r.mandatoryViolations > 0 then Fail else Pass
  {
    var m, issues := response.matrix, ParseIssues(parse, request.codes);
    ValuesAt(m.keys, m.vals);
    forall r | r in ValuesOf(m.keys, m.vals)
      ensures r.status == if r.mandatoryViolations > 0 then Fail else Pass
    {
      var id :| id in m.keys && m.vals[id] == r;
      MatrixAt(db, request, issues, request.jurisdictions, id);
      JurisdictionTotals(db, id, InHierarchy(QueriedRows(db, request, issues), Closure(db.jurisdictions, {id})), issues,
                         request.sectors, request.includeOptional);
    }
  }

  lemma ListedIds(parse: CodeParser, request: Request, db: Db, response: Response)
    requires Answers(response, parse, request, db)
    ensures |response.matrix.keys| == |Elements(request.jurisdictions) - {PROTO}|
  {
    var m := response.matrix;
    forall id ensures id in m.vals <==> id in request.jurisdictions && id != PROTO {
      MatrixAt(db, request, ParseIssues(parse, request.codes), request.jurisdictions, id);
    }
    assert Elements(request.jurisdictions) - {PROTO} == Elements(m.keys);
    DistinctSize(m.keys);
  }

  /** The summary covers the distinct requested jurisdictions, each passing or failing, except the name a plain object
      does not keep. */
  lemma SummaryOfResponse(parse: CodeParser, request: Request, db: Db, response: Response)
    requires Answers(response, parse, request, db)
    ensures response.summary.totalJurisdictions == |Elements(request.jurisdictions) - {PROTO}|
    ensures response.summary.totalJurisdictions == |Elements(request.jurisdictions)| <==> PROTO !in request.jurisdictions
    ensures response.summary.passing + response.summary.failing == response.summary.totalJurisdictions
    ensures response.summary.failing == 0 <==> response.summary.totalMandatoryViolations == 0
  {
    ValuesAt(response.matrix.keys, response.matrix.vals);
    EntriesHaveVerdicts(parse, request, db, response);
    SummarySplits(ValuesOf(response.matrix.keys, response.matrix.vals));
    ListedIds(parse, request, db, response);
    SizeWithout(Elements(request.jurisdictions), PROTO);
  }

  lemma SizeWithout(s: set<string>, x: string)
    ensures |s - {x}| == |s| <==> x !in s
  {
    if x in s { assert s == (s - {x}) + {x}; } else { assert s - {x} == s; }
  }

  /** A request for the jurisdiction "__proto__" alone is answered as a request for none. */
  lemma ProtoIsDropped(parse: CodeParser, request: Request, db: Db, response: Response)
    requires request.jurisdictions == [PROTO] && Answers(response, parse, request, db)
    ensures response.summary.totalJurisdictions == 0 && response.matrix.vals == map[]
  {
    SummaryOfResponse(parse, request, db, response);
    assert Elements([PROTO]) - {PROTO} == {};
    forall id ensures id !in response.matrix.vals { MatrixAt(db, request, ParseIssues(parse, request.codes), request.jurisdictions, id); }
  }

  lemma {:induction false} DistinctSize(s: seq<string>)
    requires Distinct(s)
    ensures |Elements(s)| == |s|
  {
    if s != [] {
      var front, last := s[..|s|-1], s[|s|-1];
      DistinctSize(front);
      assert s == front + [last];
      assert Elements(s) == Elements(front) + {last};
      assert last !in Elements(front);
    }
  }

  /** One excluded row and one issue: the jurisdiction matrix counts an optional violation, the regulation matrix none. */
  lemma ExcludedCountsAsOptional(db: Db, id: Id, req: Requirement, parsed: ParsedIssue)
    requires req.obligation == Excluded && Hits(req, parsed)
    ensures JurisdictionEntry(db, id, [req], [parsed], [], false).optionalViolations == 1
    ensures TallyRows([req], [parsed], false).totals == Totals(0, 0, 0)
  {
    JurisdictionTotals(db, id, [req], [parsed], [], false);
    assert [req][..0] == [] && [parsed][..0] == [];
    assert CountRow(db, All(Excluded, []), req, []) == 0;
    assert CountRow(db, All(Excluded, []), req, [parsed]) == 1;
    TallyRowsSnoc([], req, [parsed], false);
    assert TallyRow(TallyRows([], [parsed], false), req, [], false) == TallyRows([], [parsed], false);
  }
}
