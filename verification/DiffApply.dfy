/** The diff and the apply step are inverse up to obligations: what `applyRequirementDiff` makes of a `diffRequirements`. */
module DiffApply {
  import opened Common
  import opened RequirementDiff
  import opened Proposals
  import Compliance

  ghost predicate Names(list: seq<Requirement>, s: Slot) {
    exists r :: r in list && SlotOf(r) == s
  }

  ghost predicate NamesChange(list: seq<Change>, s: Slot) {
    exists c :: c in list && ChangeSlot(c, s.regulationId) == s
  }

  ghost predicate DistinctSlots(list: seq<Requirement>) {
    forall i, j :: 0 <= i < j < |list| ==> SlotOf(list[i]) != SlotOf(list[j])
  }

  lemma LastIsNew(list: seq<Requirement>)
    requires list != [] && DistinctSlots(list)
    ensures DistinctSlots(list[..|list|-1]) && !Names(list[..|list|-1], SlotOf(list[|list|-1]))
    ensures forall s :: Names(list, s) <==> Names(list[..|list|-1], s) || SlotOf(list[|list|-1]) == s
    ensures forall r :: r in list <==> r in list[..|list|-1] || r == list[|list|-1]
  {
    assert list == list[..|list|-1] + [list[|list|-1]];
  }

  lemma LastChangeIsNew(list: seq<Change>)
    requires list != [] && DistinctChanges(list)
    ensures DistinctChanges(list[..|list|-1])
    ensures forall s :: NamesChange(list, s) <==> NamesChange(list[..|list|-1], s) || ChangeSlot(list[|list|-1], s.regulationId) == s
    ensures forall s: Slot :: ChangeSlot(list[|list|-1], s.regulationId) == s ==> !NamesChange(list[..|list|-1], s)
    ensures forall c :: c in list <==> c in list[..|list|-1] || c == list[|list|-1]
  {
    var front, last := list[..|list|-1], list[|list|-1];
    assert list == front + [last];
    forall c | c in front
      ensures ChangeSlot(c, "") != ChangeSlot(last, "")
    {
      var i :| 0 <= i < |front| && front[i] == c;
      assert list[i] == c;
    }
  }

  // ---- The three loops -----------------------------------------------------------------------

  /** What a slot's rows are after its requirement was created. */
  ghost predicate Appended(before: seq<Row>, after: seq<Row>, added: seq<Requirement>, s: Slot) {
    |after| == |before| + 1 && after[..|before|] == before
    && after[|before|].requirement in added && SlotOf(after[|before|].requirement) == s
  }

  lemma {:induction false} CreateAllKeeps(t: Table, added: seq<Requirement>)
    requires WellFormed(t)
    ensures WellFormed(CreateAll(t, added)) && CreateAll(t, added).refuses == t.refuses
  {
    if added != [] {
      CreateAllKeeps(t, added[..|added|-1]);
    }
  }

  lemma CreatedAt(t: Table, r: Requirement, f: Filter)
    ensures Keep(Created(t, r).rows, f)
         == if (t.refuses && At(t.rows, SlotOf(r)) != []) || !Admits(f, r) then Keep(t.rows, f) else Keep(t.rows, f) + [Row(t.nextId, r)]
  {
    KeepSnoc(t.rows, Row(t.nextId, r), f);
  }

  lemma {:induction false} CreateAllAt(t: Table, added: seq<Requirement>, s: Slot)
    requires WellFormed(t) && DistinctSlots(added)
    ensures var before, after := At(t.rows, s), At(CreateAll(t, added).rows, s);
      if Names(added, s) && !(t.refuses && before != []) then Appended(before, after, added, s) else after == before
  {
    if added != [] {
      var front, r := added[..|added|-1], added[|added|-1];
      LastIsNew(added);
      CreateAllKeeps(t, front);
      CreateAllAt(t, front, s);
      CreatedAt(CreateAll(t, front), r, OfSlot(s));
    }
  }

  lemma {:induction false} CreateAllKeep(t: Table, added: seq<Requirement>, f: Filter)
    requires forall r :: r in added ==> !Admits(f, r)
    ensures Keep(CreateAll(t, added).rows, f) == Keep(t.rows, f)
  {
    if added != [] {
      InFront(added);
      CreateAllKeep(t, added[..|added|-1], f);
      CreatedAt(CreateAll(t, added[..|added|-1]), added[|added|-1], f);
    }
  }

  lemma InFront<T>(list: seq<T>)
    requires list != []
    ensures forall x :: x in list <==> x in list[..|list|-1] || x == list[|list|-1]
  {
    forall x { InFrontOrLast(list, x); }
  }

  lemma {:induction false} RemoveAllKeeps(t: Table, removed: seq<Requirement>, regulationId: string)
    requires WellFormed(t) && OneRegulation(removed, regulationId)
    ensures WellFormed(RemoveAll(t, removed)) && RemoveAll(t, removed).refuses == t.refuses
    ensures Keep(RemoveAll(t, removed).rows, NotOfRegulation(regulationId)) == Keep(t.rows, NotOfRegulation(regulationId))
  {
    if removed != [] {
      var front, r := removed[..|removed|-1], removed[|removed|-1];
      InFront(removed);
      RemoveAllKeeps(t, front, regulationId);
      RemovedKeeps(RemoveAll(t, front), r);
      RemovedEffect(RemoveAll(t, front), r, SlotOf(r), "");
    }
  }

  /** Each removed slot loses its first row, unless it is passed over. */
  lemma {:induction false} RemoveAllAt(t: Table, removed: seq<Requirement>, regulationId: string, s: Slot)
    requires WellFormed(t) && OneRegulation(removed, regulationId) && DistinctSlots(removed)
    ensures At(RemoveAll(t, removed).rows, s) == if Names(removed, s) && Hit(t, s).Some? then At(t.rows, s)[1..] else At(t.rows, s)
  {
    if removed != [] {
      var front, r := removed[..|removed|-1], removed[|removed|-1];
      LastIsNew(removed);
      RemoveAllAt(t, front, regulationId, s);
      RemoveAllKeeps(t, front, regulationId);
      RemovedEffect(RemoveAll(t, front), r, s, "");
    }
  }

  /** No removal hits a row of another org. */
  ghost predicate RemovesOwn(t: Table, removed: seq<Requirement>, org: string) {
    forall r :: r in removed && Hit(t, SlotOf(r)).Some? ==> OrgOf(Hit(t, SlotOf(r)).value.requirement) == org
  }

  lemma {:induction false} RemoveAllForeign(t: Table, removed: seq<Requirement>, regulationId: string, org: string)
    requires WellFormed(t) && OneRegulation(removed, regulationId) && DistinctSlots(removed) && RemovesOwn(t, removed, org)
    ensures Keep(RemoveAll(t, removed).rows, NotOfOrg(org)) == Keep(t.rows, NotOfOrg(org))
  {
    if removed != [] {
      var front, r := removed[..|removed|-1], removed[|removed|-1];
      LastIsNew(removed);
      RemoveAllForeign(t, front, regulationId, org);
      RemoveAllKeeps(t, front, regulationId);
      RemoveAllAt(t, front, regulationId, SlotOf(r));
      RemovedEffect(RemoveAll(t, front), r, SlotOf(r), org);
    }
  }

  lemma {:induction false} ChangeAllKeeps(t: Table, regulationId: string, changed: seq<Change>)
    requires WellFormed(t)
    ensures WellFormed(ChangeAll(t, regulationId, changed)) && ChangeAll(t, regulationId, changed).refuses == t.refuses
    ensures Keep(ChangeAll(t, regulationId, changed).rows, NotOfRegulation(regulationId)) == Keep(t.rows, NotOfRegulation(regulationId))
  {
    if changed != [] {
      var front, c := changed[..|changed|-1], changed[|changed|-1];
      ChangeAllKeeps(t, regulationId, front);
      ChangedKeeps(ChangeAll(t, regulationId, front), regulationId, c);
      ChangedEffect(ChangeAll(t, regulationId, front), regulationId, c, ChangeSlot(c, regulationId), "");
    }
  }

  /** Each changed slot gets the new obligation on its first row, unless it is passed over. */
  lemma {:induction false} ChangeAllAt(t: Table, regulationId: string, changed: seq<Change>, s: Slot, o: Obligation)
    requires WellFormed(t) && DistinctChanges(changed) && s.regulationId == regulationId
    requires forall c :: c in changed && ChangeSlot(c, regulationId) == s ==> c.newObligation == o
    ensures At(ChangeAll(t, regulationId, changed).rows, s)
         == if NamesChange(changed, s) && Hit(t, s).Some? then WithFirst(At(t.rows, s), o) else At(t.rows, s)
  {
    if changed != [] {
      var front, c := changed[..|changed|-1], changed[|changed|-1];
      LastChangeIsNew(changed);
      ChangeAllAt(t, regulationId, front, s, o);
      ChangeAllKeeps(t, regulationId, front);
      ChangedEffect(ChangeAll(t, regulationId, front), regulationId, c, s, "");
    }
  }

  /** No change rewrites a row of another org. */
  ghost predicate ChangesOwn(t: Table, regulationId: string, changed: seq<Change>, org: string) {
    forall c :: c in changed && Hit(t, ChangeSlot(c, regulationId)).Some? ==>
      var hit := Hit(t, ChangeSlot(c, regulationId)).value.requirement; OrgOf(hit) == org || hit.obligation == c.newObligation
  }

  lemma {:induction false} ChangeAllForeign(t: Table, regulationId: string, changed: seq<Change>, org: string)
    requires WellFormed(t) && DistinctChanges(changed) && ChangesOwn(t, regulationId, changed, org)
    ensures Keep(ChangeAll(t, regulationId, changed).rows, NotOfOrg(org)) == Keep(t.rows, NotOfOrg(org))
  {
    if changed != [] {
      var front, c := changed[..|changed|-1], changed[|changed|-1];
      LastChangeIsNew(changed);
      ChangeAllForeign(t, regulationId, front, org);
      ChangeAllKeeps(t, regulationId, front);
      ChangeAllAt(t, regulationId, front, ChangeSlot(c, regulationId), c.newObligation);
      ChangedEffect(ChangeAll(t, regulationId, front), regulationId, c, ChangeSlot(c, regulationId), org);
    }
  }

  // ---- What applying a diff does to each slot -----------------------------------------------------

  function Lookup(m: map<Slot, Obligation>, s: Slot): Option<Obligation> {
    if s in m then Some(m[s]) else None
  }

  /** The stored rows of the regulation say what a list says, the first row of a slot deciding. A slot may be stored
      several times, for several orgs. */
  ghost predicate Stores(t: Table, regulationId: string, list: seq<Requirement>) {
    && WellFormed(t)
    && forall s: Slot :: s.regulationId == regulationId ==> Says(t.rows, s) == Lookup(Obligations(list), s)
  }

  /** A diff of two lists of the stored regulation, the first of which is stored. */
  ghost predicate Diffs(t: Table, regulationId: string, current: seq<Requirement>, extracted: seq<Requirement>) {
    OneRegulation(current, regulationId) && OneRegulation(extracted, regulationId) && Stores(t, regulationId, current)
  }

  lemma DiffParts(regulationId: string, current: seq<Requirement>, extracted: seq<Requirement>)
    requires OneRegulation(current, regulationId) && OneRegulation(extracted, regulationId)
    ensures var d := DiffOf(regulationId, current, extracted);
      && OneRegulation(d.added, regulationId) && OneRegulation(d.removed, regulationId)
      && DistinctSlots(d.added) && DistinctSlots(d.removed) && DistinctChanges(d.changed)
  {
    var d, cur, ext := DiffOf(regulationId, current, extracted), ByKey(current), ByKey(extracted);
    MissingAre(ext.keys, ext.vals, cur.vals);
    MissingAre(cur.keys, cur.vals, ext.vals);
    DistinctKeysAreSlots(ext, cur);
    DistinctKeysAreSlots(cur, ext);
    RewordedDistinct(ext.keys, ext.vals, cur.vals);
  }

  lemma DistinctKeysAreSlots(m: OMap<string, Requirement>, other: OMap<string, Requirement>)
    requires m.Valid() && forall k :: k in m.vals ==> ReqKey(m.vals[k]) == k
    ensures DistinctSlots(Missing(m.keys, m.vals, other.vals))
  {
    MissingDistinct(m.keys, m.vals, other.vals);
    var list := Missing(m.keys, m.vals, other.vals);
    forall i, j | 0 <= i < j < |list|
      ensures SlotOf(list[i]) != SlotOf(list[j])
    {
      assert ReqKey(list[i]) != ReqKey(list[j]);
    }
  }

  /** Applying keeps the table well-formed and the rows of every other regulation untouched. */
  lemma ApplyKeeps(t: Table, regulationId: string, current: seq<Requirement>, extracted: seq<Requirement>)
    requires WellFormed(t) && OneRegulation(current, regulationId) && OneRegulation(extracted, regulationId)
    ensures var d := DiffOf(regulationId, current, extracted);
      && WellFormed(CreateAll(t, d.added)) && WellFormed(RemoveAll(CreateAll(t, d.added), d.removed))
      && WellFormed(Applied(t, d)) && Applied(t, d).refuses == t.refuses
      && Keep(Applied(t, d).rows, NotOfRegulation(regulationId)) == Keep(t.rows, NotOfRegulation(regulationId))
  {
    var d := DiffOf(regulationId, current, extracted);
    DiffParts(regulationId, current, extracted);
    CreateAllKeeps(t, d.added);
    CreateAllKeep(t, d.added, NotOfRegulation(regulationId));
    RemoveAllKeeps(CreateAll(t, d.added), d.removed, regulationId);
    ChangeAllKeeps(RemoveAll(CreateAll(t, d.added), d.removed), regulationId, d.changed);
  }

  /** The rows of a slot after the three loops, from those before. */
  ghost predicate Outcome(before: seq<Row>, after: seq<Row>, d: Diff, s: Slot, refuses: bool) {
    if Names(d.added, s) then (if refuses && before != [] then after == before else Appended(before, after, d.added, s))
    else if !Reachable(s) || before == [] then after == before
    else if Names(d.removed, s) then after == before[1..]
    else if NamesChange(d.changed, s) then exists c :: c in d.changed && ChangeSlot(c, s.regulationId) == s && after == WithFirst(before, c.newObligation)
    else after == before
  }

  /** Which list of a diff a slot is in, from what the two requirement lists say of it. */
  ghost predicate SlotParts(d: Diff, s: Slot, cur: Option<Obligation>, ext: Option<Obligation>) {
    && (Names(d.added, s) <==> cur.None? && ext.Some?)
    && (Names(d.removed, s) <==> cur.Some? && ext.None?)
    && (NamesChange(d.changed, s) <==> cur.Some? && ext.Some? && cur != ext)
    && (forall r :: r in d.added && SlotOf(r) == s ==> Some(r.obligation) == ext)
    && (forall c :: c in d.changed && ChangeSlot(c, s.regulationId) == s ==> Some(c.newObligation) == ext)
  }

  lemma PartsAreDisjoint(regulationId: string, current: seq<Requirement>, extracted: seq<Requirement>, s: Slot)
    requires OneRegulation(current, regulationId) && OneRegulation(extracted, regulationId) && s.regulationId == regulationId
    ensures SlotParts(DiffOf(regulationId, current, extracted), s, Lookup(Obligations(current), s), Lookup(Obligations(extracted), s))
  {
    DiffMeans(regulationId, current, extracted, s);
  }

  lemma ApplyOutcome(t: Table, regulationId: string, current: seq<Requirement>, extracted: seq<Requirement>, s: Slot)
    requires WellFormed(t) && OneRegulation(current, regulationId) && OneRegulation(extracted, regulationId) && s.regulationId == regulationId
    ensures var d := DiffOf(regulationId, current, extracted);
      Outcome(At(t.rows, s), At(Applied(t, d).rows, s), d, s, t.refuses)
  {
    var d, ext := DiffOf(regulationId, current, extracted), Obligations(extracted);
    DiffParts(regulationId, current, extracted);
    ApplyKeeps(t, regulationId, current, extracted);
    PartsAreDisjoint(regulationId, current, extracted, s);
    var created := CreateAll(t, d.added);
    CreateAllAt(t, d.added, s);
    RemoveAllAt(created, d.removed, regulationId, s);
    ChangeAllAt(RemoveAll(created, d.removed), regulationId, d.changed, s, if s in ext then ext[s] else Compliance.Mandatory);
  }

  /** No addition is stored beside a row that its slot has already. */
  ghost predicate AddsBesideNone(t: Table, d: Diff) {
    t.refuses || forall r :: r in d.added ==> At(t.rows, SlotOf(r)) == []
  }

  lemma SlotStaysUnique(t: Table, regulationId: string, current: seq<Requirement>, extracted: seq<Requirement>, s: Slot)
    requires WellFormed(t) && OneRegulation(current, regulationId) && OneRegulation(extracted, regulationId) && Unique(t.rows)
    requires AddsBesideNone(t, DiffOf(regulationId, current, extracted))
    ensures |At(Applied(t, DiffOf(regulationId, current, extracted)).rows, s)| <= 1
  {
    var after := Applied(t, DiffOf(regulationId, current, extracted)).rows;
    assert |At(t.rows, s)| <= 1;
    if s.regulationId == regulationId {
      ApplyOutcome(t, regulationId, current, extracted, s);
    } else {
      ApplyKeeps(t, regulationId, current, extracted);
      KeepOthersOfSlot(after, regulationId, s);
      KeepOthersOfSlot(t.rows, regulationId, s);
    }
  }

  /** Applying keeps slots unique if and only if no addition is stored beside a row of its slot. */
  lemma ApplyKeepsUniqueIff(t: Table, regulationId: string, current: seq<Requirement>, extracted: seq<Requirement>)
    requires WellFormed(t) && OneRegulation(current, regulationId) && OneRegulation(extracted, regulationId) && Unique(t.rows)
    ensures var d := DiffOf(regulationId, current, extracted); Unique(Applied(t, d).rows) <==> AddsBesideNone(t, d)
  {
    var d := DiffOf(regulationId, current, extracted);
    if AddsBesideNone(t, d) {
      forall s: Slot ensures |At(Applied(t, d).rows, s)| <= 1 { SlotStaysUnique(t, regulationId, current, extracted, s); }
    } else {
      var r :| r in d.added && At(t.rows, SlotOf(r)) != [];
      DiffParts(regulationId, current, extracted);
      ApplyOutcome(t, regulationId, current, extracted, SlotOf(r));
    }
  }

  // ---- The round trip ------------------------------------------------------------------------

  /** No entry of the diff is one the apply loops pass over. */
  ghost predicate NothingSkipped(d: Diff) {
    && (forall r :: r in d.removed ==> d.regulationId != "" && r.wcagCriterion != "")
    && (forall c :: c in d.changed ==> d.regulationId != "" && c.wcagCriterion != "")
  }

  /** No removed slot has a second row, which the removal would bring to light. */
  ghost predicate NothingShadowed(t: Table, d: Diff) {
    forall r :: r in d.removed && Reachable(SlotOf(r)) ==> |At(t.rows, SlotOf(r))| <= 1
  }

  /** What keeps one slot from saying what was extracted. */
  ghost predicate Obstructed(t: Table, d: Diff, s: Slot) {
    || ((Names(d.removed, s) || NamesChange(d.changed, s)) && !Reachable(s))
    || (Names(d.removed, s) && |At(t.rows, s)| > 1)
  }

  /** Does the outcome of a slot say what was extracted? */
  lemma OutcomeSays(before: seq<Row>, after: seq<Row>, d: Diff, s: Slot, refuses: bool, cur: Option<Obligation>, ext: Option<Obligation>)
    requires Outcome(before, after, d, s, refuses) && SlotParts(d, s, cur, ext)
    requires cur == if before == [] then None else Some(before[0].requirement.obligation)
    ensures var obstructed := ((Names(d.removed, s) || NamesChange(d.changed, s)) && !Reachable(s)) || (Names(d.removed, s) && |before| > 1);
      ext == (if after == [] then None else Some(after[0].requirement.obligation)) <==> !obstructed
  {
  }

  lemma SlotRoundTrip(t: Table, regulationId: string, current: seq<Requirement>, extracted: seq<Requirement>, s: Slot)
    requires Diffs(t, regulationId, current, extracted) && s.regulationId == regulationId
    ensures var d := DiffOf(regulationId, current, extracted);
      Says(Applied(t, d).rows, s) == Lookup(Obligations(extracted), s) <==> !Obstructed(t, d, s)
  {
    var d := DiffOf(regulationId, current, extracted);
    ApplyOutcome(t, regulationId, current, extracted, s);
    PartsAreDisjoint(regulationId, current, extracted, s);
    assert Says(t.rows, s) == Lookup(Obligations(current), s);
    OutcomeSays(At(t.rows, s), At(Applied(t, d).rows, s), d, s, t.refuses, Lookup(Obligations(current), s), Lookup(Obligations(extracted), s));
  }

  lemma ObstructedIff(t: Table, d: Diff)
    requires OneRegulation(d.removed, d.regulationId)
    ensures NothingSkipped(d) && NothingShadowed(t, d) <==> forall s: Slot :: s.regulationId == d.regulationId ==> !Obstructed(t, d, s)
  {
    if forall s: Slot :: s.regulationId == d.regulationId ==> !Obstructed(t, d, s) {
      forall r | r in d.removed ensures Reachable(SlotOf(r)) && |At(t.rows, SlotOf(r))| <= 1 { assert !Obstructed(t, d, SlotOf(r)); }
      forall c | c in d.changed ensures Reachable(ChangeSlot(c, d.regulationId)) { assert !Obstructed(t, d, ChangeSlot(c, d.regulationId)); }
    }
  }

  /** The round trip: the stored obligations become exactly the extracted ones if and only if no removed or changed entry is
      passed over and no removed slot is stored a second time. */
  lemma RoundTrip(t: Table, regulationId: string, current: seq<Requirement>, extracted: seq<Requirement>)
    requires Diffs(t, regulationId, current, extracted)
    ensures var d := DiffOf(regulationId, current, extracted);
      Stores(Applied(t, d), regulationId, extracted) <==> NothingSkipped(d) && NothingShadowed(t, d)
  {
    ApplyKeeps(t, regulationId, current, extracted);
    DiffParts(regulationId, current, extracted);
    ObstructedIff(t, DiffOf(regulationId, current, extracted));
    forall s: Slot | s.regulationId == regulationId { SlotRoundTrip(t, regulationId, current, extracted, s); }
  }

  // ---- Rows of other orgs --------------------------------------------------------------------

  /** Every added requirement belongs to the org or is refused. */
  ghost predicate AddsOwn(t: Table, added: seq<Requirement>, org: string) {
    forall r :: r in added ==> OrgOf(r) == org || (t.refuses && At(t.rows, SlotOf(r)) != [])
  }

  /** Every write of the diff goes to rows of one org. */
  ghost predicate TouchesOnly(t: Table, d: Diff, org: string) {
    AddsOwn(t, d.added, org) && RemovesOwn(t, d.removed, org) && ChangesOwn(t, d.regulationId, d.changed, org)
  }

  lemma {:induction false} CreateAllForeign(t: Table, added: seq<Requirement>, org: string)
    requires WellFormed(t) && DistinctSlots(added) && AddsOwn(t, added, org)
    ensures Keep(CreateAll(t, added).rows, NotOfOrg(org)) == Keep(t.rows, NotOfOrg(org))
  {
    if added != [] {
      var front, r := added[..|added|-1], added[|added|-1];
      LastIsNew(added);
      CreateAllForeign(t, front, org);
      CreateAllKeeps(t, front);
      CreateAllAt(t, front, SlotOf(r));
      CreatedAt(CreateAll(t, front), r, NotOfOrg(org));
    }
  }

  /** The earlier loops leave the rows alone that a removal or change hits. */
  lemma HitsAreUndisturbed(t: Table, regulationId: string, current: seq<Requirement>, extracted: seq<Requirement>, s: Slot)
    requires WellFormed(t) && OneRegulation(current, regulationId) && OneRegulation(extracted, regulationId) && s.regulationId == regulationId
    ensures var d := DiffOf(regulationId, current, extracted); var created := CreateAll(t, d.added);
      && (Names(d.removed, s) ==> At(created.rows, s) == At(t.rows, s))
      && (NamesChange(d.changed, s) ==> At(RemoveAll(created, d.removed).rows, s) == At(t.rows, s))
  {
    var d := DiffOf(regulationId, current, extracted);
    DiffParts(regulationId, current, extracted);
    ApplyKeeps(t, regulationId, current, extracted);
    PartsAreDisjoint(regulationId, current, extracted, s);
    CreateAllAt(t, d.added, s);
    RemoveAllAt(CreateAll(t, d.added), d.removed, regulationId, s);
  }

  lemma StillOwn(t: Table, regulationId: string, current: seq<Requirement>, extracted: seq<Requirement>, org: string)
    requires WellFormed(t) && OneRegulation(current, regulationId) && OneRegulation(extracted, regulationId)
    requires TouchesOnly(t, DiffOf(regulationId, current, extracted), org)
    ensures var d := DiffOf(regulationId, current, extracted); var created := CreateAll(t, d.added);
      RemovesOwn(created, d.removed, org) && ChangesOwn(RemoveAll(created, d.removed), regulationId, d.changed, org)
  {
    var d := DiffOf(regulationId, current, extracted);
    DiffParts(regulationId, current, extracted);
    forall r | r in d.removed { HitsAreUndisturbed(t, regulationId, current, extracted, SlotOf(r)); }
    forall c | c in d.changed { HitsAreUndisturbed(t, regulationId, current, extracted, ChangeSlot(c, regulationId)); }
  }

  lemma OwnWritesKeepOthers(t: Table, regulationId: string, current: seq<Requirement>, extracted: seq<Requirement>, org: string)
    requires WellFormed(t) && OneRegulation(current, regulationId) && OneRegulation(extracted, regulationId)
    requires TouchesOnly(t, DiffOf(regulationId, current, extracted), org)
    ensures Keep(Applied(t, DiffOf(regulationId, current, extracted)).rows, NotOfOrg(org)) == Keep(t.rows, NotOfOrg(org))
  {
    var d := DiffOf(regulationId, current, extracted);
    DiffParts(regulationId, current, extracted);
    ApplyKeeps(t, regulationId, current, extracted);
    CreateAllForeign(t, d.added, org);
    var created := CreateAll(t, d.added);
    StillOwn(t, regulationId, current, extracted, org);
    RemoveAllForeign(created, d.removed, regulationId, org);
    ChangeAllForeign(RemoveAll(created, d.removed), regulationId, d.changed, org);
  }

  /** A row of another org that is in one table but not in the other shows. */
  lemma ForeignRowShows(rows: seq<Row>, rows': seq<Row>, x: Row, s: Slot, org: string)
    requires OrgOf(x.requirement) != org && x in At(rows, s) && x !in At(rows', s)
    ensures Keep(rows, NotOfOrg(org)) != Keep(rows', NotOfOrg(org))
  {
    KeepIs(rows, OfSlot(s));
    KeepIs(rows', OfSlot(s));
    KeepIs(rows, NotOfOrg(org));
    KeepIs(rows', NotOfOrg(org));
  }

  lemma ForeignAdditionShows(t: Table, regulationId: string, current: seq<Requirement>, extracted: seq<Requirement>, org: string, r: Requirement)
    requires WellFormed(t) && OneRegulation(current, regulationId) && OneRegulation(extracted, regulationId)
    requires r in DiffOf(regulationId, current, extracted).added && OrgOf(r) != org && !(t.refuses && At(t.rows, SlotOf(r)) != [])
    ensures Keep(Applied(t, DiffOf(regulationId, current, extracted)).rows, NotOfOrg(org)) != Keep(t.rows, NotOfOrg(org))
  {
    var d, s := DiffOf(regulationId, current, extracted), SlotOf(r);
    DiffParts(regulationId, current, extracted);
    ApplyKeeps(t, regulationId, current, extracted);
    ApplyOutcome(t, regulationId, current, extracted, s);
    var before, after := At(t.rows, s), At(Applied(t, d).rows, s);
    assert Appended(before, after, d.added, s);
    SameSlot(d.added, r, after[|before|].requirement);
    KeepIs(Applied(t, d).rows, OfSlot(s));
    assert after[|before|] !in before by { assert forall i :: 0 <= i < |before| ==> before[i] == after[i]; }
    ForeignRowShows(Applied(t, d).rows, t.rows, after[|before|], s, org);
  }

  lemma SameSlot(list: seq<Requirement>, r: Requirement, x: Requirement)
    requires DistinctSlots(list) && r in list && x in list && SlotOf(r) == SlotOf(x)
    ensures r == x
  {
  }

  /** A row that is removed or gets another obligation is no longer there. */
  lemma FirstIsGone(before: seq<Row>, after: seq<Row>, o: Obligation)
    requires before != [] && DistinctIds(before)
    requires after == before[1..] || (after == WithFirst(before, o) && before[0].requirement.obligation != o)
    ensures before[0] !in after
  {
    if after == before[1..] {
      assert forall i :: 0 <= i < |after| ==> after[i] == before[i + 1];
    } else {
      assert forall i :: 0 < i < |after| ==> after[i] == before[i];
    }
  }

  lemma ForeignRemovalShows(t: Table, regulationId: string, current: seq<Requirement>, extracted: seq<Requirement>, org: string, r: Requirement)
    requires WellFormed(t) && OneRegulation(current, regulationId) && OneRegulation(extracted, regulationId)
    requires r in DiffOf(regulationId, current, extracted).removed
    requires Hit(t, SlotOf(r)).Some? && OrgOf(Hit(t, SlotOf(r)).value.requirement) != org
    ensures Keep(Applied(t, DiffOf(regulationId, current, extracted)).rows, NotOfOrg(org)) != Keep(t.rows, NotOfOrg(org))
  {
    var d, s := DiffOf(regulationId, current, extracted), SlotOf(r);
    var before, after := At(t.rows, s), At(Applied(t, d).rows, s);
    DiffParts(regulationId, current, extracted);
    HitIs(t, s);
    PartsAreDisjoint(regulationId, current, extracted, s);
    ApplyOutcome(t, regulationId, current, extracted, s);
    FirstIsGone(before, after, before[0].requirement.obligation);
    ForeignRowShows(t.rows, Applied(t, d).rows, before[0], s, org);
  }

  lemma ForeignChangeShows(t: Table, regulationId: string, current: seq<Requirement>, extracted: seq<Requirement>, org: string, c: Change)
    requires WellFormed(t) && OneRegulation(current, regulationId) && OneRegulation(extracted, regulationId)
    requires c in DiffOf(regulationId, current, extracted).changed
    requires var hit := Hit(t, ChangeSlot(c, regulationId));
      hit.Some? && OrgOf(hit.value.requirement) != org && hit.value.requirement.obligation != c.newObligation
    ensures Keep(Applied(t, DiffOf(regulationId, current, extracted)).rows, NotOfOrg(org)) != Keep(t.rows, NotOfOrg(org))
  {
    var d, s := DiffOf(regulationId, current, extracted), ChangeSlot(c, regulationId);
    var before, after := At(t.rows, s), At(Applied(t, d).rows, s);
    HitIs(t, s);
    PartsAreDisjoint(regulationId, current, extracted, s);
    ApplyOutcome(t, regulationId, current, extracted, s);
    assert after == WithFirst(before, c.newObligation);
    FirstIsGone(before, after, c.newObligation);
    ForeignRowShows(t.rows, Applied(t, d).rows, before[0], s, org);
  }

  /** The rows of other orgs survive if and only if every added requirement belongs to `org` or is refused, and the first row
      of every slot that is removed or gets another obligation belongs to it. */
  lemma OtherOrgsKeptIff(t: Table, regulationId: string, current: seq<Requirement>, extracted: seq<Requirement>, org: string)
    requires WellFormed(t) && OneRegulation(current, regulationId) && OneRegulation(extracted, regulationId)
    ensures var d := DiffOf(regulationId, current, extracted);
      Keep(Applied(t, d).rows, NotOfOrg(org)) == Keep(t.rows, NotOfOrg(org)) <==> TouchesOnly(t, d, org)
  {
    var d := DiffOf(regulationId, current, extracted);
    if TouchesOnly(t, d, org) {
      OwnWritesKeepOthers(t, regulationId, current, extracted, org);
    } else if r :| r in d.added && OrgOf(r) != org && !(t.refuses && At(t.rows, SlotOf(r)) != []) {
      ForeignAdditionShows(t, regulationId, current, extracted, org, r);
    } else if r :| r in d.removed && Hit(t, SlotOf(r)).Some? && OrgOf(Hit(t, SlotOf(r)).value.requirement) != org {
      ForeignRemovalShows(t, regulationId, current, extracted, org, r);
    } else {
      var c :| c in d.changed && Hit(t, ChangeSlot(c, regulationId)).Some?
               && OrgOf(Hit(t, ChangeSlot(c, regulationId)).value.requirement) != org
               && Hit(t, ChangeSlot(c, regulationId)).value.requirement.obligation != c.newObligation;
      ForeignChangeShows(t, regulationId, current, extracted, org, c);
    }
  }

  // ---- Applying again ------------------------------------------------------------------------

  lemma {:induction false} NothingToRemove(t: Table, removed: seq<Requirement>)
    requires forall r :: r in removed ==> Hit(t, SlotOf(r)).None?
    ensures RemoveAll(t, removed) == t
  {
    if removed != [] {
      InFront(removed);
      NothingToRemove(t, removed[..|removed|-1]);
      TargetMeans(t.rows, SlotOf(removed[|removed|-1]));
    }
  }

  lemma {:induction false} NothingToChange(t: Table, regulationId: string, changed: seq<Change>)
    requires WellFormed(t)
    requires forall c :: c in changed && Hit(t, ChangeSlot(c, regulationId)).Some? ==>
               Hit(t, ChangeSlot(c, regulationId)).value.requirement.obligation == c.newObligation
    ensures ChangeAll(t, regulationId, changed) == t
  {
    if changed != [] {
      var c := changed[|changed|-1];
      var hit := Hit(t, ChangeSlot(c, regulationId));
      InFront(changed);
      NothingToChange(t, regulationId, changed[..|changed|-1]);
      ChangedKeeps(t, regulationId, c);
      if hit.Some? {
        HitIs(t, ChangeSlot(c, regulationId));
        forall i | 0 <= i < |t.rows| && t.rows[i].id == hit.value.id ensures t.rows[i] == hit.value { SameId(t.rows, t.rows[i], hit.value); }
        assert SetObligation(hit.value, c.newObligation) == hit.value;
        assert WithObligation(t.rows, hit.value.id, c.newObligation) == t.rows;
      }
    }
  }

  lemma {:induction false} NothingToAdd(t: Table, added: seq<Requirement>)
    requires t.refuses && forall r :: r in added ==> At(t.rows, SlotOf(r)) != []
    ensures CreateAll(t, added) == t
  {
    if added != [] {
      InFront(added);
      NothingToAdd(t, added[..|added|-1]);
    }
  }

  /** What one application leaves for the next, slot by slot. */
  lemma AfterApplyAt(t: Table, regulationId: string, current: seq<Requirement>, extracted: seq<Requirement>, s: Slot)
    requires WellFormed(t) && OneRegulation(current, regulationId) && OneRegulation(extracted, regulationId) && s.regulationId == regulationId
    ensures var d := DiffOf(regulationId, current, extracted); var before, once := At(t.rows, s), At(Applied(t, d).rows, s);
      && (Names(d.added, s) ==> |once| == if t.refuses && before != [] then |before| else |before| + 1)
      && (Names(d.removed, s) && Reachable(s) ==> |once| == if before == [] then 0 else |before| - 1)
      && (NamesChange(d.changed, s) && Reachable(s) && once != [] ==>
            Some(once[0].requirement.obligation) == Lookup(Obligations(extracted), s))
  {
    ApplyOutcome(t, regulationId, current, extracted, s);
    PartsAreDisjoint(regulationId, current, extracted, s);
  }

  lemma RemovedOnce(t: Table, regulationId: string, current: seq<Requirement>, extracted: seq<Requirement>, r: Requirement)
    requires WellFormed(t) && OneRegulation(current, regulationId) && OneRegulation(extracted, regulationId)
    requires r in DiffOf(regulationId, current, extracted).removed
    requires Reachable(SlotOf(r)) ==> |At(t.rows, SlotOf(r))| <= 1
    ensures Hit(Applied(t, DiffOf(regulationId, current, extracted)), SlotOf(r)).None?
  {
    DiffParts(regulationId, current, extracted);
    AfterApplyAt(t, regulationId, current, extracted, SlotOf(r));
  }

  lemma ChangedOnce(t: Table, regulationId: string, current: seq<Requirement>, extracted: seq<Requirement>, c: Change)
    requires WellFormed(t) && OneRegulation(current, regulationId) && OneRegulation(extracted, regulationId)
    requires c in DiffOf(regulationId, current, extracted).changed
    ensures var hit := Hit(Applied(t, DiffOf(regulationId, current, extracted)), ChangeSlot(c, regulationId));
      hit.Some? ==> hit.value.requirement.obligation == c.newObligation
  {
    AfterApplyAt(t, regulationId, current, extracted, ChangeSlot(c, regulationId));
    PartsAreDisjoint(regulationId, current, extracted, ChangeSlot(c, regulationId));
  }

  lemma AddedOnce(t: Table, regulationId: string, current: seq<Requirement>, extracted: seq<Requirement>, r: Requirement)
    requires WellFormed(t) && OneRegulation(current, regulationId) && OneRegulation(extracted, regulationId)
    requires r in DiffOf(regulationId, current, extracted).added
    ensures At(Applied(t, DiffOf(regulationId, current, extracted)).rows, SlotOf(r)) != []
  {
    DiffParts(regulationId, current, extracted);
    AfterApplyAt(t, regulationId, current, extracted, SlotOf(r));
  }

  /** A second application of the diff finds nothing to do. */
  lemma SecondPassIdle(t: Table, regulationId: string, current: seq<Requirement>, extracted: seq<Requirement>)
    requires WellFormed(t) && OneRegulation(current, regulationId) && OneRegulation(extracted, regulationId)
    requires var d := DiffOf(regulationId, current, extracted); (t.refuses || d.added == []) && NothingShadowed(t, d)
    ensures var d := DiffOf(regulationId, current, extracted); Applied(Applied(t, d), d) == Applied(t, d)
  {
    var d := DiffOf(regulationId, current, extracted);
    var once := Applied(t, d);
    ApplyKeeps(t, regulationId, current, extracted);
    assert CreateAll(once, d.added) == once by {
      if t.refuses {
        forall r | r in d.added ensures At(once.rows, SlotOf(r)) != [] { AddedOnce(t, regulationId, current, extracted, r); }
        NothingToAdd(once, d.added);
      }
    }
    assert RemoveAll(once, d.removed) == once by {
      forall r | r in d.removed ensures Hit(once, SlotOf(r)).None? { RemovedOnce(t, regulationId, current, extracted, r); }
      NothingToRemove(once, d.removed);
    }
    assert ChangeAll(once, d.regulationId, d.changed) == once by {
      forall c | c in d.changed { ChangedOnce(t, regulationId, current, extracted, c); }
      NothingToChange(once, regulationId, d.changed);
    }
  }

  /** On an adapter that does not refuse, every added slot gets one row more. */
  lemma SecondPassAdds(t: Table, regulationId: string, current: seq<Requirement>, extracted: seq<Requirement>, r: Requirement)
    requires WellFormed(t) && OneRegulation(current, regulationId) && OneRegulation(extracted, regulationId)
    requires !t.refuses && r in DiffOf(regulationId, current, extracted).added
    ensures var d := DiffOf(regulationId, current, extracted); var once := Applied(t, d);
      At(once.rows, SlotOf(r)) != [] && |At(Applied(once, d).rows, SlotOf(r))| == |At(once.rows, SlotOf(r))| + 1
  {
    DiffParts(regulationId, current, extracted);
    ApplyKeeps(t, regulationId, current, extracted);
    AfterApplyAt(t, regulationId, current, extracted, SlotOf(r));
    AfterApplyAt(Applied(t, DiffOf(regulationId, current, extracted)), regulationId, current, extracted, SlotOf(r));
  }

  lemma SecondPassRemoves(t: Table, regulationId: string, current: seq<Requirement>, extracted: seq<Requirement>, r: Requirement)
    requires WellFormed(t) && OneRegulation(current, regulationId) && OneRegulation(extracted, regulationId)
    requires r in DiffOf(regulationId, current, extracted).removed
    requires Reachable(SlotOf(r)) && |At(t.rows, SlotOf(r))| > 1
    ensures var d := DiffOf(regulationId, current, extracted); Applied(Applied(t, d), d) != Applied(t, d)
  {
    DiffParts(regulationId, current, extracted);
    ApplyKeeps(t, regulationId, current, extracted);
    AfterApplyAt(t, regulationId, current, extracted, SlotOf(r));
    AfterApplyAt(Applied(t, DiffOf(regulationId, current, extracted)), regulationId, current, extracted, SlotOf(r));
  }

  /** Applying the same diff again changes nothing if and only if the adapter refuses taken slots or the diff adds nothing,
      and no removed slot was stored a second time. */
  lemma ApplyAgain(t: Table, regulationId: string, current: seq<Requirement>, extracted: seq<Requirement>)
    requires WellFormed(t) && OneRegulation(current, regulationId) && OneRegulation(extracted, regulationId)
    ensures var d := DiffOf(regulationId, current, extracted); var once := Applied(t, d);
      && (Applied(once, d) == once <==> (t.refuses || d.added == []) && NothingShadowed(t, d))
      && (!t.refuses ==> forall r :: r in d.added ==> |At(Applied(once, d).rows, SlotOf(r))| == |At(once.rows, SlotOf(r))| + 1)
  {
    var d := DiffOf(regulationId, current, extracted);
    if !t.refuses {
      forall r | r in d.added { SecondPassAdds(t, regulationId, current, extracted, r); }
      assert d.added != [] ==> d.added[0] in d.added;
    }
    if r :| r in d.removed && Reachable(SlotOf(r)) && |At(t.rows, SlotOf(r))| > 1 {
      SecondPassRemoves(t, regulationId, current, extracted, r);
    } else if t.refuses || d.added == [] {
      SecondPassIdle(t, regulationId, current, extracted);
    }
  }

  /** After two applications slots that were unique still are, if and only if the adapter refuses taken slots or the diff
      adds nothing. */
  lemma TwiceKeepsUniqueIff(t: Table, regulationId: string, current: seq<Requirement>, extracted: seq<Requirement>)
    requires WellFormed(t) && OneRegulation(current, regulationId) && OneRegulation(extracted, regulationId) && Unique(t.rows)
    ensures var d := DiffOf(regulationId, current, extracted);
      Unique(Applied(Applied(t, d), d).rows) <==> t.refuses || d.added == []
  {
    var d := DiffOf(regulationId, current, extracted);
    var once := Applied(t, d);
    ApplyKeeps(t, regulationId, current, extracted);
    if t.refuses || d.added == [] {
      ApplyKeepsUniqueIff(t, regulationId, current, extracted);
      ApplyKeepsUniqueIff(once, regulationId, current, extracted);
    } else {
      SecondPassAdds(t, regulationId, current, extracted, d.added[0]);
      assert |At(Applied(once, d).rows, SlotOf(d.added[0]))| > 1;
    }
  }

  // ---- Inputs that show the conditions are needed ----------------------------------------------

  lemma OneRow(row: Row, r: Requirement)
    ensures Obligations([r]) == map[SlotOf(r) := r.obligation]
    ensures forall s :: At([row], s) == if SlotOf(row.requirement) == s then [row] else []
  {
    assert [row][..0] == [] && [r][..0] == [];
    assert Obligations([]) == map[];
    forall s ensures Keep([], OfSlot(s)) == [] {}
  }

  /** On an adapter that does not refuse, two applications of one addition store its slot twice. */
  lemma SecondApplyDuplicates(r: Requirement)
    ensures var d := DiffOf(r.regulationId, [], [r]);
      !Unique(Applied(Applied(Table([], 0, false), d), d).rows)
  {
    var t, d := Table([], 0, false), DiffOf(r.regulationId, [], [r]);
    OneRow(Row(0, r), r);
    assert Obligations([]) == map[];
    forall s ensures At(t.rows, s) == [] {}
    DiffMeans(r.regulationId, [], [r], SlotOf(r));
    TwiceKeepsUniqueIff(t, r.regulationId, [], [r]);
  }

  /** A stored requirement with an empty criterion survives a diff that removes it. */
  lemma EmptyCriterionSurvives(r: Requirement, refuses: bool)
    requires r.wcagCriterion == ""
    ensures !Stores(Applied(Table([Row(0, r)], 1, refuses), DiffOf(r.regulationId, [r], [])), r.regulationId, [])
  {
    var t := Table([Row(0, r)], 1, refuses);
    OneRow(Row(0, r), r);
    assert Obligations([]) == map[];
    DiffMeans(r.regulationId, [r], [], SlotOf(r));
    RoundTrip(t, r.regulationId, [r], []);
  }

  lemma TwoRows(a: Row, b: Row, s: Slot)
    requires SlotOf(a.requirement) == SlotOf(b.requirement)
    ensures At([a, b], s) == if SlotOf(a.requirement) == s then [a, b] else []
  {
    OneRow(a, a.requirement);
    KeepSnoc([a], b, OfSlot(s));
    assert [a] + [b] == [a, b];
  }

  /** A slot stored for one org and then for another: removing it on behalf of the second takes the first org's row,
      whatever obligations the two rows have. */
  lemma RemovalHitsOtherOrg(own: Requirement, other: Requirement)
    requires SlotOf(own) == SlotOf(other) && Reachable(SlotOf(own)) && OrgOf(own) != OrgOf(other)
    ensures var t, d := Table([Row(0, other), Row(1, own)], 2, false), DiffOf(own.regulationId, [own], []);
      Keep(Applied(t, d).rows, NotOfOrg(OrgOf(own))) != Keep(t.rows, NotOfOrg(OrgOf(own)))
  {
    var t, d := Table([Row(0, other), Row(1, own)], 2, false), DiffOf(own.regulationId, [own], []);
    OneRow(Row(1, own), own);
    assert Obligations([]) == map[];
    TwoRows(Row(0, other), Row(1, own), SlotOf(own));
    PartsAreDisjoint(own.regulationId, [own], [], SlotOf(own));
    var r :| r in d.removed && SlotOf(r) == SlotOf(own);
    ForeignRemovalShows(t, own.regulationId, [own], [], OrgOf(own), r);
  }
}
