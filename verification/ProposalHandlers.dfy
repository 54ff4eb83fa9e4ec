/** The handlers that decide on update proposals (proposals.ts). */
module ProposalHandlers {
  import opened Common
  import opened RequirementDiff
  import opened Proposals
  import opened DiffApply

  /** What a proposal carries in `after`. */
  datatype Payload = ContentHash(hash: string) | RequirementDiff(diff: Diff)

  datatype Status = Pending | Approved | Rejected | Acknowledged | Reviewed | Dismissed

  datatype Proposal = Proposal(payload: Payload, status: Status, reviewedBy: Option<string>, reviewedAt: Option<string>,
                               acknowledgedBy: Option<string>, acknowledgedAt: Option<string>, notes: Option<string>)

  /** What a payload does to the table: a content hash nothing, a requirement diff what the three loops do. */
  ghost predicate Effect(before: Table, after: Table, p: Payload) {
    match p
    case ContentHash(_) => after == before
    case RequirementDiff(diff) => after == Applied(before, diff)
  }

  /** The same, told of the stored rows. A content hash leaves every slot as it was. A diff of two requirement lists leaves the
      rows `Outcome` gives, and if the first list was stored, the second one is, exactly when no entry is passed over and
      no removed slot has a second row. */
  ghost predicate Means(before: Table, after: Table, p: Payload) {
    && (p.ContentHash? ==> forall s :: At(after.rows, s) == At(before.rows, s))
    && forall regulationId, current, extracted ::
         p == RequirementDiff(DiffOf(regulationId, current, extracted)) && OneRegulation(current, regulationId) && OneRegulation(extracted, regulationId) ==>
           MeansDiff(before, after, regulationId, current, extracted)
  }

  ghost predicate MeansDiff(before: Table, after: Table, regulationId: string, current: seq<Requirement>, extracted: seq<Requirement>) {
    var d := DiffOf(regulationId, current, extracted);
    && WellFormed(after)
    && (forall s: Slot :: s.regulationId == regulationId ==> Outcome(At(before.rows, s), At(after.rows, s), d, s, before.refuses))
    && (Stores(before, regulationId, current) ==>
          (Stores(after, regulationId, extracted) <==> NothingSkipped(d) && NothingShadowed(before, d)))
  }

  lemma EffectMeans(before: Table, after: Table, p: Payload)
    requires WellFormed(before) && Effect(before, after, p)
    ensures Means(before, after, p)
  {
    forall regulationId, current, extracted |
      p == RequirementDiff(DiffOf(regulationId, current, extracted)) && OneRegulation(current, regulationId) && OneRegulation(extracted, regulationId)
      ensures MeansDiff(before, after, regulationId, current, extracted)
    {
      ApplyKeeps(before, regulationId, current, extracted);
      forall s: Slot | s.regulationId == regulationId { ApplyOutcome(before, regulationId, current, extracted, s); }
      if Stores(before, regulationId, current) { RoundTrip(before, regulationId, current, extracted); }
    }
  }

  class Database {
    var rows: seq<Row>
    var nextId: nat
    const refuses: bool
    var proposals: map<string, Proposal>

    constructor (refuses: bool)
      ensures Contents() == Table([], 0, refuses) && proposals == map[]
    {
      this.refuses := refuses;
      rows, nextId, proposals := [], 0, map[];
    }

    ghost function Contents(): Table
      reads this
    {
      Table(rows, nextId, refuses)
    }

    /** `createRequirement`; false stands for the exception a refusing adapter throws. */
    method CreateRequirement(r: Requirement) returns (ok: bool)
      modifies this`rows, this`nextId
      ensures Contents() == Created(old(Contents()), r)
      ensures ok <==> !(refuses && At(old(rows), SlotOf(r)) != [])
    {
      if refuses && At(rows, SlotOf(r)) != [] {
        return false;
      }
      rows, nextId := rows + [Row(nextId, r)], nextId + 1;
      ok := true;
    }

    method ListRequirements(regulationId: string) returns (existing: seq<Row>)
      ensures existing == Keep(rows, OfRegulation(regulationId))
    {
      existing := Keep(rows, OfRegulation(regulationId));
    }

    method DeleteRequirement(id: nat)
      modifies this`rows
      ensures rows == Without(old(rows), id)
    {
      rows := Without(rows, id);
    }

    method UpdateObligation(id: nat, o: Obligation)
      modifies this`rows
      ensures rows == WithObligation(old(rows), id, o)
    {
      rows := WithObligation(rows, id, o);
    }

    /** First loop: additions, a refused one is skipped. */
    method CreateAdded(added: seq<Requirement>)
      modifies this`rows, this`nextId
      ensures Contents() == CreateAll(old(Contents()), added)
    {
      for i := 0 to |added|
        invariant Contents() == CreateAll(old(Contents()), added[..i])
      {
        assert added[..i + 1][..i] == added[..i];
        var _ := CreateRequirement(added[i]);
      }
      assert added[..|added|] == added;
    }

    /** Second loop: removals. */
    method DeleteRemoved(removed: seq<Requirement>)
      modifies this`rows
      ensures Contents() == RemoveAll(old(Contents()), removed)
    {
      for i := 0 to |removed|
        invariant Contents() == RemoveAll(old(Contents()), removed[..i])
      {
        var r := removed[i];
        assert removed[..i + 1][..i] == removed[..i];
        if r.regulationId != "" && r.wcagCriterion != "" {
          var existing := ListRequirements(r.regulationId);
          var match_ := FindId(existing, r.wcagVersion, r.wcagCriterion);
          if match_.Some? {
            DeleteRequirement(match_.value);
          }
        }
      }
      assert removed[..|removed|] == removed;
    }

    /** Third loop: changes. */
    method UpdateChanged(regulationId: string, changed: seq<Change>)
      modifies this`rows
      ensures Contents() == ChangeAll(old(Contents()), regulationId, changed)
    {
      for i := 0 to |changed|
        invariant Contents() == ChangeAll(old(Contents()), regulationId, changed[..i])
      {
        var c := changed[i];
        assert changed[..i + 1][..i] == changed[..i];
        if c.wcagCriterion == "" { continue; }
        if regulationId == "" { continue; }
        var existing := ListRequirements(regulationId);
        var match_ := FindId(existing, c.wcagVersion, c.wcagCriterion);
        if match_.Some? {
          UpdateObligation(match_.value, c.newObligation);
        }
      }
      assert changed[..|changed|] == changed;
    }

    /** `applyRequirementDiff`. */
    method ApplyRequirementDiff(d: Diff)
      modifies this`rows, this`nextId
      ensures Contents() == Applied(old(Contents()), d)
    {
      CreateAdded(d.added);
      DeleteRemoved(d.removed);
      UpdateChanged(d.regulationId, d.changed);
    }

    /** `safeApplyChange`: a content-hash payload never touches the requirements. */
    method SafeApplyChange(p: Payload)
      modifies this`rows, this`nextId
      ensures Effect(old(Contents()), Contents(), p)
      ensures WellFormed(old(Contents())) ==> Means(old(Contents()), Contents(), p)
    {
      ghost var before := Contents();
      match p {
        case ContentHash(_) =>
        case RequirementDiff(diff) => ApplyRequirementDiff(diff);
      }
      if WellFormed(before) { EffectMeans(before, Contents(), p); }
    }

    /** `approveUpdate`, `acknowledgeUpdate` and `reviewUpdate`: apply, then record the verdict.
        The current status is not looked at; an unknown proposal is an error and changes nothing. */
    method ApplyAndMark(proposalId: string, verdict: Status, who: string, now: string, notes: Option<string>) returns (found: bool)
      requires verdict in {Approved, Acknowledged, Reviewed} && (verdict == Approved ==> notes == None)
      modifies this
      ensures found <==> proposalId in old(proposals)
      ensures !found ==> Contents() == old(Contents()) && proposals == old(proposals)
      ensures found ==> Effect(old(Contents()), Contents(), old(proposals)[proposalId].payload)
      ensures found && WellFormed(old(Contents())) ==> Means(old(Contents()), Contents(), old(proposals)[proposalId].payload)
      ensures found ==> proposals.Keys == old(proposals).Keys && forall k :: k in proposals && k != proposalId ==> proposals[k] == old(proposals)[k]
      ensures found ==> var was, stored := old(proposals)[proposalId], proposals[proposalId];
        && stored.payload == was.payload && stored.status == verdict && stored.notes == (if notes.Some? then notes else was.notes)
        && (verdict == Acknowledged ==>
              && stored.acknowledgedBy == Some(who) && stored.acknowledgedAt == Some(now)
              && stored.reviewedBy == was.reviewedBy && stored.reviewedAt == was.reviewedAt)
        && (verdict != Acknowledged ==>
              && stored.reviewedBy == Some(who) && stored.reviewedAt == Some(now)
              && stored.acknowledgedBy == was.acknowledgedBy && stored.acknowledgedAt == was.acknowledgedAt)
    {
      if proposalId !in proposals {
        return false;
      }
      SafeApplyChange(proposals[proposalId].payload);
      var p := proposals[proposalId].(status := verdict);
      if verdict == Acknowledged {
        p := p.(acknowledgedBy := Some(who), acknowledgedAt := Some(now));
      } else {
        p := p.(reviewedBy := Some(who), reviewedAt := Some(now));
      }
      if notes.Some? {
        p := p.(notes := notes);
      }
      proposals := proposals[proposalId := p];
      found := true;
    }

    /** `rejectUpdate` and `dismissUpdate`: record the verdict only. */
    method OnlyMark(proposalId: string, verdict: Status, who: string, now: string, notes: Option<string>) returns (found: bool)
      requires verdict in {Rejected, Dismissed} && (verdict == Rejected ==> notes == None)
      modifies this`proposals
      ensures found <==> proposalId in old(proposals)
      ensures !found ==> proposals == old(proposals)
      ensures found ==> proposals.Keys == old(proposals).Keys && forall k :: k in proposals && k != proposalId ==> proposals[k] == old(proposals)[k]
      ensures found ==> var was, stored := old(proposals)[proposalId], proposals[proposalId];
        && stored.payload == was.payload && stored.status == verdict && stored.notes == (if notes.Some? then notes else was.notes)
        && stored.reviewedBy == Some(who) && stored.reviewedAt == Some(now)
        && stored.acknowledgedBy == was.acknowledgedBy && stored.acknowledgedAt == was.acknowledgedAt
    {
      if proposalId !in proposals {
        return false;
      }
      var p := proposals[proposalId].(status := verdict, reviewedBy := Some(who), reviewedAt := Some(now));
      if notes.Some? {
        p := p.(notes := notes);
      }
      proposals := proposals[proposalId := p];
      found := true;
    }
  }
}
