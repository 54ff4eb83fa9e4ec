/** Diffing two requirement lists of one regulation (`diffRequirements`). */
module RequirementDiff {
  import opened Common
  import Compliance

  type Obligation = Compliance.Obligation

  datatype Version = V20 | V21 | V22

  function VersionText(v: Version): string {
    match v
    case V20 => "2.0"
    case V21 => "2.1"
    case V22 => "2.2"
  }

  datatype Requirement = Requirement(regulationId: string, wcagVersion: Version, wcagLevel: string, wcagCriterion: string,
                                     obligation: Obligation, notes: Option<string>, orgId: Option<string>)

  datatype Change = Change(wcagCriterion: string, wcagVersion: Version, wcagLevel: string,
                           oldObligation: Obligation, newObligation: Obligation)

  datatype Diff = Diff(regulationId: string, added: seq<Requirement>, removed: seq<Requirement>, changed: seq<Change>, hasChanges: bool)

  datatype Slot = Slot(regulationId: string, wcagVersion: Version, wcagCriterion: string)

  function SlotOf(r: Requirement): Slot {
    Slot(r.regulationId, r.wcagVersion, r.wcagCriterion)
  }

  function KeyOfSlot(s: Slot): string {
    VersionText(s.wcagVersion) + ":" + s.wcagCriterion
  }

  /** `reqKey`. */
  function ReqKey(r: Requirement): string {
    KeyOfSlot(SlotOf(r))
  }

  lemma SlotKeysAreInjective(s: Slot, t: Slot)
    requires s.regulationId == t.regulationId && KeyOfSlot(s) == KeyOfSlot(t)
    ensures s == t
  {
    assert KeyOfSlot(s)[2] == VersionText(s.wcagVersion)[2] && KeyOfSlot(t)[2] == VersionText(t.wcagVersion)[2];
    assert KeyOfSlot(s)[4..] == s.wcagCriterion && KeyOfSlot(t)[4..] == t.wcagCriterion;
  }

  /** `new Map(list.map(r => [reqKey(r), r]))`: a later duplicate replaces an earlier one. */
  function ByKey(list: seq<Requirement>): (m: OMap<string, Requirement>)
    ensures m.Valid()
    ensures forall k :: k in m.vals ==> m.vals[k] in list && ReqKey(m.vals[k]) == k
    ensures forall r :: r in list ==> ReqKey(r) in m.vals
  {
    if list == [] then Empty() else
    var last := list[|list|-1];
    assert list == list[..|list|-1] + [last];
    ByKey(list[..|list|-1]).Put(ReqKey(last), last)
  }

  function Missing(keys: seq<string>, from: map<string, Requirement>, other: map<string, Requirement>): seq<Requirement>
    requires forall k :: k in keys ==> k in from
  {
    if keys == [] then [] else
    var before, k := Missing(keys[..|keys|-1], from, other), keys[|keys|-1];
    if k in other then before else before + [from[k]]
  }

  function Reworded(keys: seq<string>, extracted: map<string, Requirement>, current: map<string, Requirement>): seq<Change>
    requires forall k :: k in keys ==> k in extracted
  {
    if keys == [] then [] else
    var before, k := Reworded(keys[..|keys|-1], extracted, current), keys[|keys|-1];
    if k in current && current[k].obligation != extracted[k].obligation
    then before + [Change(extracted[k].wcagCriterion, extracted[k].wcagVersion, extracted[k].wcagLevel,
                          current[k].obligation, extracted[k].obligation)]
    else before
  }

  function DiffOf(regulationId: string, current: seq<Requirement>, extracted: seq<Requirement>): Diff {
    var cur, ext := ByKey(current), ByKey(extracted);
    var added := Missing(ext.keys, ext.vals, cur.vals);
    var removed := Missing(cur.keys, cur.vals, ext.vals);
    var changed := Reworded(ext.keys, ext.vals, cur.vals);
    Diff(regulationId, added, removed, changed, added != [] || removed != [] || changed != [])
  }

  method BuildMap(list: seq<Requirement>) returns (m: OMap<string, Requirement>)
    ensures m == ByKey(list)
  {
    m := Empty();
    for i := 0 to |list|
      invariant m == ByKey(list[..i])
    {
      assert list[..i + 1][..i] == list[..i];
      m := m.Put(ReqKey(list[i]), list[i]);
    }
    assert list[..|list|] == list;
  }

  /** First loop: new keys are added, shared keys with another obligation are changed. */
  method CompareExtracted(ext: OMap<string, Requirement>, cur: OMap<string, Requirement>)
      returns (added: seq<Requirement>, changed: seq<Change>)
    requires ext.Valid()
    ensures added == Missing(ext.keys, ext.vals, cur.vals)
    ensures changed == Reworded(ext.keys, ext.vals, cur.vals)
  {
    added, changed := [], [];
    for i := 0 to |ext.keys|
      invariant added == Missing(ext.keys[..i], ext.vals, cur.vals)
      invariant changed == Reworded(ext.keys[..i], ext.vals, cur.vals)
    {
      var key := ext.keys[i];
      var req := ext.vals[key];
      assert ext.keys[..i + 1][..i] == ext.keys[..i];
      if key !in cur.vals {
        added := added + [req];
      } else if cur.vals[key].obligation != req.obligation {
        changed := changed + [Change(req.wcagCriterion, req.wcagVersion, req.wcagLevel, cur.vals[key].obligation, req.obligation)];
      }
    }
    assert ext.keys[..|ext.keys|] == ext.keys;
  }

  /** Second loop: keys that are gone. */
  method FindRemoved(cur: OMap<string, Requirement>, ext: OMap<string, Requirement>) returns (removed: seq<Requirement>)
    requires cur.Valid()
    ensures removed == Missing(cur.keys, cur.vals, ext.vals)
  {
    removed := [];
    for i := 0 to |cur.keys|
      invariant removed == Missing(cur.keys[..i], cur.vals, ext.vals)
    {
      assert cur.keys[..i + 1][..i] == cur.keys[..i];
      if cur.keys[i] !in ext.vals {
        removed := removed + [cur.vals[cur.keys[i]]];
      }
    }
    assert cur.keys[..|cur.keys|] == cur.keys;
  }

  /** `diffRequirements`. */
  method DiffRequirements(regulationId: string, current: seq<Requirement>, extracted: seq<Requirement>) returns (diff: Diff)
    ensures diff == DiffOf(regulationId, current, extracted)
  {
    var currentMap := BuildMap(current);
    var extractedMap := BuildMap(extracted);
    var added, changed := CompareExtracted(extractedMap, currentMap);
    var removed := FindRemoved(currentMap, extractedMap);
    diff := Diff(regulationId, added, removed, changed, |added| > 0 || |removed| > 0 || |changed| > 0);
  }

  // ---- What a list says: (version, criterion) to obligation ----------------------------------

  /** The obligation of each slot of a list, the last mention deciding. */
  function Obligations(list: seq<Requirement>): map<Slot, Obligation> {
    if list == [] then map[] else
    Obligations(list[..|list|-1])[SlotOf(list[|list|-1]) := list[|list|-1].obligation]
  }

  ghost predicate OneRegulation(list: seq<Requirement>, regulationId: string) {
    forall r :: r in list ==> r.regulationId == regulationId
  }

  /** The key map and the obligation map of a one-regulation list agree. */
  lemma {:induction false} ByKeyMeans(list: seq<Requirement>, regulationId: string, s: Slot)
    requires OneRegulation(list, regulationId) && s.regulationId == regulationId
    ensures s in Obligations(list) <==> KeyOfSlot(s) in ByKey(list).vals
    ensures s in Obligations(list) ==> Obligations(list)[s] == ByKey(list).vals[KeyOfSlot(s)].obligation
  {
    if list != [] {
      var front, last := list[..|list|-1], list[|list|-1];
      assert last in list && forall r :: r in front ==> r in list;
      ByKeyMeans(front, regulationId, s);
      if KeyOfSlot(s) == ReqKey(last) {
        SlotKeysAreInjective(s, SlotOf(last));
      }
    }
  }

  lemma {:induction false} ObligationsOfOne(list: seq<Requirement>, regulationId: string)
    requires OneRegulation(list, regulationId)
    ensures forall s :: s in Obligations(list) ==> s.regulationId == regulationId
  {
    if list != [] {
      assert list[|list|-1] in list && forall r :: r in list[..|list|-1] ==> r in list;
      ObligationsOfOne(list[..|list|-1], regulationId);
    }
  }

  lemma {:induction false} MissingAre(keys: seq<string>, from: map<string, Requirement>, other: map<string, Requirement>)
    requires forall k :: k in keys ==> k in from && ReqKey(from[k]) == k
    ensures forall r :: r in Missing(keys, from, other) <==> exists k :: k in keys && k !in other && from[k] == r
  {
    if keys != [] {
      MissingAre(keys[..|keys|-1], from, other);
      assert keys == keys[..|keys|-1] + [keys[|keys|-1]];
    }
  }

  ghost predicate DistinctKeys(list: seq<Requirement>) {
    forall i, j :: 0 <= i < j < |list| ==> ReqKey(list[i]) != ReqKey(list[j])
  }

  /** No two listed requirements share a key. */
  lemma {:induction false} MissingDistinct(keys: seq<string>, from: map<string, Requirement>, other: map<string, Requirement>)
    requires forall k :: k in keys ==> k in from && ReqKey(from[k]) == k
    requires Distinct(keys)
    ensures DistinctKeys(Missing(keys, from, other))
  {
    if keys != [] {
      var front, k := keys[..|keys|-1], keys[|keys|-1];
      MissingDistinct(front, from, other);
      MissingAre(front, from, other);
      var before := Missing(front, from, other);
      forall i | 0 <= i < |before|
        ensures ReqKey(before[i]) != k
      {
        assert before[i] in before;
        var x :| x in front && x !in other && from[x] == before[i];
      }
    }
  }

  function ChangeOf(r: Requirement, before: Obligation): Change {
    Change(r.wcagCriterion, r.wcagVersion, r.wcagLevel, before, r.obligation)
  }

  lemma {:induction false} RewordedAre(keys: seq<string>, ext: map<string, Requirement>, cur: map<string, Requirement>)
    requires forall k :: k in keys ==> k in ext
    ensures forall c :: c in Reworded(keys, ext, cur) <==>
              exists k :: k in keys && k in cur && cur[k].obligation != ext[k].obligation && c == ChangeOf(ext[k], cur[k].obligation)
  {
    if keys != [] {
      RewordedAre(keys[..|keys|-1], ext, cur);
      assert keys == keys[..|keys|-1] + [keys[|keys|-1]];
    }
  }

  ghost predicate DistinctChanges(list: seq<Change>) {
    forall i, j :: 0 <= i < j < |list| ==> ChangeSlot(list[i], "") != ChangeSlot(list[j], "")
  }

  /** No two changes are about the same version and criterion. */
  lemma {:induction false} RewordedDistinct(keys: seq<string>, ext: map<string, Requirement>, cur: map<string, Requirement>)
    requires forall k :: k in keys ==> k in ext && ReqKey(ext[k]) == k
    requires Distinct(keys)
    ensures DistinctChanges(Reworded(keys, ext, cur))
  {
    if keys != [] {
      var front, k := keys[..|keys|-1], keys[|keys|-1];
      RewordedDistinct(front, ext, cur);
      RewordedAre(front, ext, cur);
      var before := Reworded(front, ext, cur);
      forall i | 0 <= i < |before|
        ensures KeyOfSlot(ChangeSlot(before[i], "")) != k
      {
        assert before[i] in before;
        var x :| x in front && x in cur && cur[x].obligation != ext[x].obligation && before[i] == ChangeOf(ext[x], cur[x].obligation);
        assert KeyOfSlot(ChangeSlot(before[i], "")) == x;
      }
      assert KeyOfSlot(SlotOf(ext[k])) == k;
    }
  }

  /** What the three lists of a diff contain, in terms of the two obligation maps. */
  lemma DiffMeans(regulationId: string, current: seq<Requirement>, extracted: seq<Requirement>, s: Slot)
    requires OneRegulation(current, regulationId) && OneRegulation(extracted, regulationId) && s.regulationId == regulationId
    ensures var d, cur, ext := DiffOf(regulationId, current, extracted), Obligations(current), Obligations(extracted);
      && ((exists r :: r in d.added && SlotOf(r) == s) <==> s !in cur && s in ext)
      && (forall r :: r in d.added && SlotOf(r) == s ==> s in ext && r.obligation == ext[s])
      && ((exists r :: r in d.removed && SlotOf(r) == s) <==> s in cur && s !in ext)
      && ((exists c :: c in d.changed && ChangeSlot(c, regulationId) == s) <==> s in cur && s in ext && cur[s] != ext[s])
      && (forall c :: c in d.changed && ChangeSlot(c, regulationId) == s ==> s in ext && c.newObligation == ext[s])
  {
    var d, cur, ext := DiffOf(regulationId, current, extracted), ByKey(current), ByKey(extracted);
    ByKeyMeans(current, regulationId, s);
    ByKeyMeans(extracted, regulationId, s);
    MissingAre(ext.keys, ext.vals, cur.vals);
    MissingAre(cur.keys, cur.vals, ext.vals);
    RewordedAre(ext.keys, ext.vals, cur.vals);
    var key := KeyOfSlot(s);
    if key in ext.vals { SlotKeysAreInjective(s, SlotOf(ext.vals[key])); }
    if key in cur.vals { SlotKeysAreInjective(s, SlotOf(cur.vals[key])); }
    assert forall r :: SlotOf(r) == s ==> ReqKey(r) == key;
    if s !in Obligations(current) && s in Obligations(extracted) { assert ext.vals[key] in d.added; }
    if s in Obligations(current) && s !in Obligations(extracted) { assert cur.vals[key] in d.removed; }
    if s in Obligations(current) && s in Obligations(extracted) && cur.vals[key].obligation != ext.vals[key].obligation {
      assert ChangeOf(ext.vals[key], cur.vals[key].obligation) in d.changed;
    }
    forall c | c in d.changed && ChangeSlot(c, regulationId) == s
      ensures key in cur.vals && key in ext.vals && c == ChangeOf(ext.vals[key], cur.vals[key].obligation)
           && cur.vals[key].obligation != ext.vals[key].obligation
    {
      var k :| k in ext.keys && k in cur.vals && cur.vals[k].obligation != ext.vals[k].obligation && c == ChangeOf(ext.vals[k], cur.vals[k].obligation);
      assert k == ReqKey(ext.vals[k]) == key;
    }
  }

  /** Where the entries of a diff come from: additions are extracted rows, removals are current rows, and a change
      names an extracted row together with the obligation the current rows say. */
  lemma DiffEntries(regulationId: string, current: seq<Requirement>, extracted: seq<Requirement>)
    requires OneRegulation(current, regulationId) && OneRegulation(extracted, regulationId)
    ensures var d := DiffOf(regulationId, current, extracted);
      && (forall r :: r in d.added ==> r in extracted)
      && (forall r :: r in d.removed ==> r in current)
      && (forall c :: c in d.changed ==>
            && ChangeSlot(c, regulationId) in Obligations(current)
            && c.oldObligation == Obligations(current)[ChangeSlot(c, regulationId)]
            && exists r :: r in extracted && c.wcagCriterion == r.wcagCriterion && c.wcagVersion == r.wcagVersion
                           && c.wcagLevel == r.wcagLevel && c.newObligation == r.obligation)
  {
    var d, cur, ext := DiffOf(regulationId, current, extracted), ByKey(current), ByKey(extracted);
    MissingAre(ext.keys, ext.vals, cur.vals);
    MissingAre(cur.keys, cur.vals, ext.vals);
    RewordedAre(ext.keys, ext.vals, cur.vals);
    forall c | c in d.changed
      ensures ChangeSlot(c, regulationId) in Obligations(current)
      ensures c.oldObligation == Obligations(current)[ChangeSlot(c, regulationId)]
      ensures exists r :: r in extracted && c.wcagCriterion == r.wcagCriterion && c.wcagVersion == r.wcagVersion
                          && c.wcagLevel == r.wcagLevel && c.newObligation == r.obligation
    {
      var k :| k in ext.keys && k in cur.vals && cur.vals[k].obligation != ext.vals[k].obligation && c == ChangeOf(ext.vals[k], cur.vals[k].obligation);
      assert KeyOfSlot(ChangeSlot(c, regulationId)) == ReqKey(ext.vals[k]) == k;
      ByKeyMeans(current, regulationId, ChangeSlot(c, regulationId));
      assert ext.vals[k] in extracted;
    }
  }

  lemma ChangesShow(regulationId: string, current: seq<Requirement>, extracted: seq<Requirement>)
    requires OneRegulation(current, regulationId) && OneRegulation(extracted, regulationId)
    requires DiffOf(regulationId, current, extracted).hasChanges
    ensures Obligations(current) != Obligations(extracted)
  {
    var d := DiffOf(regulationId, current, extracted);
    DiffEntries(regulationId, current, extracted);
    if d.added != [] {
      DiffMeans(regulationId, current, extracted, SlotOf(d.added[0]));
    } else if d.removed != [] {
      DiffMeans(regulationId, current, extracted, SlotOf(d.removed[0]));
    } else {
      DiffMeans(regulationId, current, extracted, ChangeSlot(d.changed[0], regulationId));
    }
  }

  /** A diff reports changes exactly when the two lists say different things; level and notes do not matter. */
  lemma HasChangesIff(regulationId: string, current: seq<Requirement>, extracted: seq<Requirement>)
    requires OneRegulation(current, regulationId) && OneRegulation(extracted, regulationId)
    ensures DiffOf(regulationId, current, extracted).hasChanges <==> Obligations(current) != Obligations(extracted)
  {
    var cur, ext := Obligations(current), Obligations(extracted);
    if cur == ext {
      if DiffOf(regulationId, current, extracted).hasChanges { ChangesShow(regulationId, current, extracted); }
    } else {
      var s :| (s in cur) != (s in ext) || (s in cur && s in ext && cur[s] != ext[s]);
      ObligationsOfOne(current, regulationId);
      ObligationsOfOne(extracted, regulationId);
      DiffMeans(regulationId, current, extracted, s);
    }
  }

  function ChangeSlot(c: Change, regulationId: string): Slot {
    Slot(regulationId, c.wcagVersion, c.wcagCriterion)
  }
}
