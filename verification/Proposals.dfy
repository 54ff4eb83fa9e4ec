/** The stored requirements and what applying a requirement diff does to them (proposals.ts). */
module Proposals {
  import opened Common
  import opened RequirementDiff

  datatype Row = Row(id: nat, requirement: Requirement)

  /** The requirements table. `refuses` says whether the adapter throws on a slot that is taken. */
  datatype Table = Table(rows: seq<Row>, nextId: nat, refuses: bool)

  /** The org a requirement belongs to: `orgId ?? 'system'`. */
  function OrgOf(r: Requirement): (org: string)
    ensures r.orgId == None ==> org == "system"
    ensures r.orgId == None || r.orgId == Some(org)
  {
    if r.orgId.Some? then r.orgId.value else "system"
  }

  ghost predicate DistinctIds(rows: seq<Row>) {
    forall i, j :: 0 <= i < j < |rows| ==> rows[i].id != rows[j].id
  }

  ghost predicate WellFormed(t: Table) {
    DistinctIds(t.rows) && forall row :: row in t.rows ==> row.id < t.nextId
  }

  /** Which rows to look at. */
  datatype Filter = OfRegulation(regulationId: string) | NotOfRegulation(regulationId: string) | OfSlot(slot: Slot) | NotOfOrg(orgId: string)

  predicate Admits(f: Filter, r: Requirement) {
    match f
    case OfRegulation(id) => r.regulationId == id
    case NotOfRegulation(id) => r.regulationId != id
    case OfSlot(slot) => SlotOf(r) == slot
    case NotOfOrg(orgId) => OrgOf(r) != orgId
  }

  function Keep(rows: seq<Row>, f: Filter): seq<Row> {
    if rows == [] then [] else
    var before, row := Keep(rows[..|rows|-1], f), rows[|rows|-1];
    if Admits(f, row.requirement) then before + [row] else before
  }

  /** The rows of a slot in table order, whatever org they belong to. */
  function At(rows: seq<Row>, s: Slot): seq<Row> {
    Keep(rows, OfSlot(s))
  }

  /** The obligation stored for a slot, the first row deciding. */
  function Says(rows: seq<Row>, s: Slot): Option<Obligation> {
    if At(rows, s) == [] then None else Some(At(rows, s)[0].requirement.obligation)
  }

  /** At most one row per slot. */
  ghost predicate Unique(rows: seq<Row>) {
    forall s :: |At(rows, s)| <= 1
  }

  /** `existing.find(...)?.id`: the first row of that version and criterion. */
  function FindId(existing: seq<Row>, version: Version, criterion: string): Option<nat> {
    if existing == [] then None else
    var before, row := FindId(existing[..|existing|-1], version, criterion), existing[|existing|-1];
    if before.Some? then before
    else if row.requirement.wcagVersion == version && row.requirement.wcagCriterion == criterion then Some(row.id) else None
  }

  function Target(rows: seq<Row>, s: Slot): Option<nat> {
    FindId(Keep(rows, OfRegulation(s.regulationId)), s.wcagVersion, s.wcagCriterion)
  }

  function Without(rows: seq<Row>, id: nat): seq<Row> {
    if rows == [] then [] else
    var before, row := Without(rows[..|rows|-1], id), rows[|rows|-1];
    if row.id == id then before else before + [row]
  }

  function SetObligation(row: Row, o: Obligation): Row {
    row.(requirement := row.requirement.(obligation := o))
  }

  function WithObligation(rows: seq<Row>, id: nat, o: Obligation): seq<Row> {
    seq(|rows|, i requires 0 <= i < |rows| => if rows[i].id == id then SetObligation(rows[i], o) else rows[i])
  }

  // ---- One step on the table -----------------------------------------------------------------

  function Created(t: Table, r: Requirement): Table {
    if t.refuses && At(t.rows, SlotOf(r)) != [] then t
    else t.(rows := t.rows + [Row(t.nextId, r)], nextId := t.nextId + 1)
  }

  /** Entries with an empty regulation id or criterion are passed over. */
  predicate Reachable(s: Slot) {
    s.regulationId != "" && s.wcagCriterion != ""
  }

  function Removed(t: Table, r: Requirement): Table {
    if r.regulationId == "" || r.wcagCriterion == "" then t else
    var target := Target(t.rows, SlotOf(r));
    if target.None? then t else t.(rows := Without(t.rows, target.value))
  }

  function Changed(t: Table, regulationId: string, c: Change): Table {
    if c.wcagCriterion == "" || regulationId == "" then t else
    var target := Target(t.rows, ChangeSlot(c, regulationId));
    if target.None? then t else t.(rows := WithObligation(t.rows, target.value, c.newObligation))
  }

  function CreateAll(t: Table, added: seq<Requirement>): Table {
    if added == [] then t else Created(CreateAll(t, added[..|added|-1]), added[|added|-1])
  }

  function RemoveAll(t: Table, removed: seq<Requirement>): Table {
    if removed == [] then t else Removed(RemoveAll(t, removed[..|removed|-1]), removed[|removed|-1])
  }

  function ChangeAll(t: Table, regulationId: string, changed: seq<Change>): Table {
    if changed == [] then t else Changed(ChangeAll(t, regulationId, changed[..|changed|-1]), regulationId, changed[|changed|-1])
  }

  /** The three loops of `applyRequirementDiff`. */
  function Applied(t: Table, d: Diff): Table {
    ChangeAll(RemoveAll(CreateAll(t, d.added), d.removed), d.regulationId, d.changed)
  }

  // ---- Filtered rows -------------------------------------------------------------------------

  lemma KeepSnoc(rows: seq<Row>, row: Row, f: Filter)
    ensures Keep(rows + [row], f) == if Admits(f, row.requirement) then Keep(rows, f) + [row] else Keep(rows, f)
  {
    assert (rows + [row])[..|rows|] == rows;
  }

  lemma {:induction false} KeptRows(rows: seq<Row>, f: Filter)
    ensures forall row :: row in Keep(rows, f) <==> row in rows && Admits(f, row.requirement)
  {
    if rows != [] {
      assert rows == rows[..|rows|-1] + [rows[|rows|-1]];
      KeptRows(rows[..|rows|-1], f);
    }
  }

  lemma {:induction false} KeptIds(rows: seq<Row>, f: Filter)
    requires DistinctIds(rows)
    ensures DistinctIds(Keep(rows, f))
  {
    if rows != [] {
      var front, last := rows[..|rows|-1], rows[|rows|-1];
      KeptIds(front, f);
      KeptRows(front, f);
      forall i | 0 <= i < |Keep(front, f)| ensures Keep(front, f)[i].id != last.id { assert Keep(front, f)[i] in front; }
    }
  }

  lemma KeepIs(rows: seq<Row>, f: Filter)
    ensures forall row :: row in Keep(rows, f) <==> row in rows && Admits(f, row.requirement)
    ensures DistinctIds(rows) ==> DistinctIds(Keep(rows, f))
  {
    KeptRows(rows, f);
    if DistinctIds(rows) { KeptIds(rows, f); }
  }

  lemma {:induction false} KeepOthersOfSlot(rows: seq<Row>, regulationId: string, s: Slot)
    requires s.regulationId != regulationId
    ensures At(Keep(rows, NotOfRegulation(regulationId)), s) == At(rows, s)
  {
    if rows != [] {
      var front, last := rows[..|rows|-1], rows[|rows|-1];
      KeepOthersOfSlot(front, regulationId, s);
      KeepSnoc(Keep(front, NotOfRegulation(regulationId)), last, OfSlot(s));
    }
  }

  lemma {:induction false} KeepWithout(rows: seq<Row>, id: nat, f: Filter)
    ensures Keep(Without(rows, id), f) == Without(Keep(rows, f), id)
  {
    if rows != [] {
      var front, last := rows[..|rows|-1], rows[|rows|-1];
      KeepWithout(front, id, f);
      KeepSnoc(Without(front, id), last, f);
      WithoutSnoc(Keep(front, f), last, id);
    }
  }

  lemma WithoutSnoc(rows: seq<Row>, row: Row, id: nat)
    ensures Without(rows + [row], id) == if row.id == id then Without(rows, id) else Without(rows, id) + [row]
  {
    assert (rows + [row])[..|rows|] == rows;
  }

  lemma WithObligationSnoc(rows: seq<Row>, row: Row, id: nat, o: Obligation)
    ensures WithObligation(rows + [row], id, o) == WithObligation(rows, id, o) + [if row.id == id then SetObligation(row, o) else row]
  {
  }

  lemma {:induction false} KeepWithObligation(rows: seq<Row>, id: nat, o: Obligation, f: Filter)
    ensures Keep(WithObligation(rows, id, o), f) == WithObligation(Keep(rows, f), id, o)
  {
    if rows != [] {
      var front, last := rows[..|rows|-1], rows[|rows|-1];
      KeepWithObligation(front, id, o, f);
      assert rows == front + [last];
      WithObligationSnoc(front, last, id, o);
      KeepSnoc(WithObligation(front, id, o), if last.id == id then SetObligation(last, o) else last, f);
      WithObligationSnoc(Keep(front, f), last, id, o);
    }
  }

  lemma {:induction false} WithoutIs(rows: seq<Row>, id: nat)
    ensures forall row :: row in Without(rows, id) <==> row in rows && row.id != id
    ensures DistinctIds(rows) ==> DistinctIds(Without(rows, id))
  {
    if rows != [] {
      var front, last := rows[..|rows|-1], rows[|rows|-1];
      WithoutIs(front, id);
      assert rows == front + [last];
      assert forall i :: 0 <= i < |Without(front, id)| ==> Without(front, id)[i] in Without(front, id);
    }
  }

  lemma {:induction false} WithoutAbsent(rows: seq<Row>, id: nat)
    requires forall row :: row in rows ==> row.id != id
    ensures Without(rows, id) == rows
  {
    if rows != [] {
      forall row | row in rows[..|rows|-1] ensures row.id != id { InFrontOrLast(rows, row); }
      WithoutAbsent(rows[..|rows|-1], id);
      assert rows[|rows|-1] in rows;
    }
  }

  lemma {:induction false} WithoutFirst(rows: seq<Row>)
    requires rows != [] && DistinctIds(rows)
    ensures Without(rows, rows[0].id) == rows[1..]
  {
    var front, last := rows[..|rows|-1], rows[|rows|-1];
    if front != [] {
      WithoutFirst(front);
      assert rows[1..] == front[1..] + [last];
    } else {
      assert rows[1..] == [] == Without(front, rows[0].id);
    }
  }

  /** The first row with another obligation. */
  function WithFirst(rows: seq<Row>, o: Obligation): seq<Row> {
    if rows == [] then [] else [SetObligation(rows[0], o)] + rows[1..]
  }

  lemma WithObligationFirst(rows: seq<Row>, o: Obligation)
    requires rows != [] && DistinctIds(rows)
    ensures WithObligation(rows, rows[0].id, o) == WithFirst(rows, o)
  {
  }

  lemma WithObligationAbsent(rows: seq<Row>, id: nat, o: Obligation)
    requires forall row :: row in rows ==> row.id != id
    ensures WithObligation(rows, id, o) == rows
  {
    assert forall i :: 0 <= i < |rows| ==> rows[i] in rows;
  }

  /** Looking up by regulation, version and criterion finds the first row of the slot, whatever its org. */
  lemma {:induction false} TargetMeans(rows: seq<Row>, s: Slot)
    ensures Target(rows, s) == if At(rows, s) == [] then None else Some(At(rows, s)[0].id)
  {
    if rows != [] {
      var front, last := rows[..|rows|-1], rows[|rows|-1];
      TargetMeans(front, s);
      var of := Keep(front, OfRegulation(s.regulationId));
      assert (of + [last])[..|of|] == of;
    }
  }

  /** Ids identify rows. */
  lemma SameId(rows: seq<Row>, r: Row, s: Row)
    requires DistinctIds(rows) && r in rows && s in rows && r.id == s.id
    ensures r == s
  {
  }

  // ---- What one step does --------------------------------------------------------------------

  /** A row is taken out of what a filter shows if it is shown at all. */
  lemma KeepWithoutRow(rows: seq<Row>, hit: Row, f: Filter)
    requires DistinctIds(rows) && hit in rows
    ensures !Admits(f, hit.requirement) ==> Keep(Without(rows, hit.id), f) == Keep(rows, f)
    ensures Admits(f, hit.requirement) ==> hit in Keep(rows, f) && hit !in Keep(Without(rows, hit.id), f)
  {
    KeepWithout(rows, hit.id, f);
    KeepIs(rows, f);
    WithoutIs(Keep(rows, f), hit.id);
    forall row | row in Keep(rows, f) && row.id == hit.id ensures row == hit { SameId(rows, row, hit); }
    if !Admits(f, hit.requirement) { WithoutAbsent(Keep(rows, f), hit.id); }
  }

  lemma WithObligationIdle(rows: seq<Row>, hit: Row, o: Obligation)
    requires hit.requirement.obligation == o && forall row :: row in rows && row.id == hit.id ==> row == hit
    ensures WithObligation(rows, hit.id, o) == rows
  {
    assert SetObligation(hit, o) == hit;
    assert forall i :: 0 <= i < |rows| ==> rows[i] in rows;
  }

  lemma WithObligationReplaces(rows: seq<Row>, hit: Row, o: Obligation)
    requires hit.requirement.obligation != o
    ensures hit !in WithObligation(rows, hit.id, o)
  {
  }

  /** A row is rewritten in what a filter shows if it is shown at all and changes. */
  lemma KeepWithObligationRow(rows: seq<Row>, hit: Row, o: Obligation, f: Filter)
    requires DistinctIds(rows) && hit in rows
    ensures !Admits(f, hit.requirement) || hit.requirement.obligation == o ==> Keep(WithObligation(rows, hit.id, o), f) == Keep(rows, f)
    ensures Admits(f, hit.requirement) && hit.requirement.obligation != o ==>
              hit in Keep(rows, f) && hit !in Keep(WithObligation(rows, hit.id, o), f)
  {
    KeepWithObligation(rows, hit.id, o, f);
    KeepIs(rows, f);
    forall row | row in Keep(rows, f) && row.id == hit.id ensures row == hit { SameId(rows, row, hit); }
    if !Admits(f, hit.requirement) {
      WithObligationAbsent(Keep(rows, f), hit.id, o);
    } else if hit.requirement.obligation == o {
      WithObligationIdle(Keep(rows, f), hit, o);
    } else {
      WithObligationReplaces(Keep(rows, f), hit, o);
    }
  }

  /** The row a removal or change of a slot acts on, if it acts at all. */
  function Hit(t: Table, s: Slot): Option<Row> {
    if Reachable(s) && At(t.rows, s) != [] then Some(At(t.rows, s)[0]) else None
  }

  lemma HitIs(t: Table, s: Slot)
    requires WellFormed(t) && Hit(t, s).Some?
    ensures Hit(t, s).value in t.rows && SlotOf(Hit(t, s).value.requirement) == s && DistinctIds(At(t.rows, s))
    ensures Target(t.rows, s) == Some(Hit(t, s).value.id)
  {
    KeepIs(t.rows, OfSlot(s));
    TargetMeans(t.rows, s);
    assert At(t.rows, s)[0] in At(t.rows, s);
  }

  lemma RemovedKeeps(t: Table, r: Requirement)
    requires WellFormed(t)
    ensures WellFormed(Removed(t, r)) && Removed(t, r).refuses == t.refuses && Removed(t, r).nextId == t.nextId
    ensures Hit(t, SlotOf(r)).None? ==> Removed(t, r) == t
    ensures Hit(t, SlotOf(r)).Some? ==> Removed(t, r).rows == Without(t.rows, Hit(t, SlotOf(r)).value.id)
  {
    TargetMeans(t.rows, SlotOf(r));
    if Hit(t, SlotOf(r)).Some? {
      HitIs(t, SlotOf(r));
      WithoutIs(t.rows, Hit(t, SlotOf(r)).value.id);
    }
  }

  /** A removal takes out the first row of its slot and nothing else, in particular of no other regulation, and leaves
      the rows of other orgs alone exactly when that row belongs to `org`. */
  lemma RemovedEffect(t: Table, r: Requirement, s: Slot, org: string)
    requires WellFormed(t)
    ensures At(Removed(t, r).rows, s) == if s == SlotOf(r) && Hit(t, s).Some? then At(t.rows, s)[1..] else At(t.rows, s)
    ensures Keep(Removed(t, r).rows, NotOfRegulation(r.regulationId)) == Keep(t.rows, NotOfRegulation(r.regulationId))
    ensures Keep(Removed(t, r).rows, NotOfOrg(org)) == Keep(t.rows, NotOfOrg(org))
       <==> Hit(t, SlotOf(r)).None? || OrgOf(Hit(t, SlotOf(r)).value.requirement) == org
  {
    RemovedKeeps(t, r);
    if Hit(t, SlotOf(r)).Some? {
      var hit := Hit(t, SlotOf(r)).value;
      HitIs(t, SlotOf(r));
      KeepWithoutRow(t.rows, hit, OfSlot(s));
      KeepWithoutRow(t.rows, hit, NotOfRegulation(r.regulationId));
      KeepWithoutRow(t.rows, hit, NotOfOrg(org));
      if s == SlotOf(r) {
        KeepWithout(t.rows, hit.id, OfSlot(s));
        WithoutFirst(At(t.rows, s));
      }
    }
  }

  lemma ChangedKeeps(t: Table, regulationId: string, c: Change)
    requires WellFormed(t)
    ensures var s := ChangeSlot(c, regulationId);
      && WellFormed(Changed(t, regulationId, c)) && Changed(t, regulationId, c).refuses == t.refuses
      && Changed(t, regulationId, c).nextId == t.nextId
      && (Hit(t, s).None? ==> Changed(t, regulationId, c) == t)
      && (Hit(t, s).Some? ==> Changed(t, regulationId, c).rows == WithObligation(t.rows, Hit(t, s).value.id, c.newObligation))
  {
    var s := ChangeSlot(c, regulationId);
    TargetMeans(t.rows, s);
    if Hit(t, s).Some? {
      HitIs(t, s);
      var after := WithObligation(t.rows, Hit(t, s).value.id, c.newObligation);
      assert forall i :: 0 <= i < |after| ==> after[i].id == t.rows[i].id && t.rows[i] in t.rows;
    }
  }

  /** A change rewrites the obligation of the first row of its slot and nothing else. The rows of other orgs are left alone
      exactly when that row belongs to `org` or has the new obligation already. */
  lemma ChangedEffect(t: Table, regulationId: string, c: Change, s: Slot, org: string)
    requires WellFormed(t)
    ensures At(Changed(t, regulationId, c).rows, s)
         == if s == ChangeSlot(c, regulationId) && Hit(t, s).Some? then WithFirst(At(t.rows, s), c.newObligation) else At(t.rows, s)
    ensures Keep(Changed(t, regulationId, c).rows, NotOfRegulation(regulationId)) == Keep(t.rows, NotOfRegulation(regulationId))
    ensures var hit := Hit(t, ChangeSlot(c, regulationId));
      Keep(Changed(t, regulationId, c).rows, NotOfOrg(org)) == Keep(t.rows, NotOfOrg(org))
      <==> hit.None? || OrgOf(hit.value.requirement) == org || hit.value.requirement.obligation == c.newObligation
  {
    var slot := ChangeSlot(c, regulationId);
    ChangedKeeps(t, regulationId, c);
    if Hit(t, slot).Some? {
      var hit := Hit(t, slot).value;
      HitIs(t, slot);
      KeepWithObligationRow(t.rows, hit, c.newObligation, OfSlot(s));
      KeepWithObligationRow(t.rows, hit, c.newObligation, NotOfRegulation(regulationId));
      KeepWithObligationRow(t.rows, hit, c.newObligation, NotOfOrg(org));
      if s == slot {
        KeepWithObligation(t.rows, hit.id, c.newObligation, OfSlot(s));
        WithObligationFirst(At(t.rows, s), c.newObligation);
      }
    }
  }
}
