/** The change analyzer: set differences of two item lists and a greedy pairing of reworded items. */
module Analyzer {
  import opened Common

  /** The lower-cased words of an item. */
  type Words = string -> set<string>

  /** More than half of the joint words are shared (`similarity > 0.5`, with 0 for an empty union). */
  predicate Similar(words: Words, a: string, b: string) {
    2 * |words(a) * words(b)| > |words(a) + words(b)|
  }

  // ---- The greedy pairing ----------------------------------------------------------------------

  /** Pairs (position among the removed, position among the added). */
  type Pairs = seq<(nat, nat)>

  predicate Left(pairs: Pairs, r: nat) {
    exists p :: p in pairs && p.0 == r
  }

  predicate Right(pairs: Pairs, a: nat) {
    exists p :: p in pairs && p.1 == a
  }

  ghost predicate OneToOne(pairs: Pairs) {
    forall i, j :: 0 <= i < j < |pairs| ==> pairs[i].0 != pairs[j].0 && pairs[i].1 != pairs[j].1
  }

  ghost predicate AllSimilar(words: Words, removed: seq<string>, added: seq<string>, pairs: Pairs) {
    forall p :: p in pairs ==> p.0 < |removed| && p.1 < |added| && Similar(words, removed[p.0], added[p.1])
  }

  /** Nothing left over could still be paired. */
  ghost predicate Maximal(words: Words, removed: seq<string>, added: seq<string>, pairs: Pairs) {
    forall r: nat, a: nat :: r < |removed| && a < |added| && !Left(pairs, r) && !Right(pairs, a) ==> !Similar(words, removed[r], added[a])
  }

  ghost predicate TakenBefore(pairs: Pairs, r: nat, a: nat) {
    exists q :: q in pairs && q.0 < r && q.1 == a
  }

  /** A pair passes over an added item only because an earlier removed item took it. */
  ghost predicate PassedOver(words: Words, removed: seq<string>, added: seq<string>, pairs: Pairs, p: (nat, nat)) {
    forall a: nat :: a < p.1 && p.0 < |removed| && a < |added| && Similar(words, removed[p.0], added[a]) ==> TakenBefore(pairs, p.0, a)
  }

  /** A removed item stays unpaired only because earlier ones took every similar added item. */
  ghost predicate LeftOver(words: Words, removed: seq<string>, added: seq<string>, pairs: Pairs, r: nat) {
    !Left(pairs, r) && r < |removed| ==>
      forall a: nat :: a < |added| && Similar(words, removed[r], added[a]) ==> TakenBefore(pairs, r, a)
  }

  /** First fit, for the removed items below `n`. */
  ghost predicate FirstFit(words: Words, removed: seq<string>, added: seq<string>, pairs: Pairs, n: nat) {
    && (forall i, j :: 0 <= i < j < |pairs| ==> pairs[i].0 < pairs[j].0)
    && (forall p {:trigger PassedOver(words, removed, added, pairs, p)} :: p in pairs ==> PassedOver(words, removed, added, pairs, p))
    && (forall r: nat :: r < n ==> LeftOver(words, removed, added, pairs, r))
  }

  ghost predicate Greedy(words: Words, removed: seq<string>, added: seq<string>, pairs: Pairs) {
    && OneToOne(pairs) && AllSimilar(words, removed, added, pairs)
    && Maximal(words, removed, added, pairs) && FirstFit(words, removed, added, pairs, |removed|)
  }

  function Unmatched(items: seq<string>, taken: set<nat>): seq<string> {
    if items == [] then [] else
    var before := Unmatched(items[..|items|-1], taken);
    if |items| - 1 in taken then before else before + [items[|items|-1]]
  }

  function Lefts(pairs: Pairs): set<nat> { set p | p in pairs :: p.0 }
  function Rights(pairs: Pairs): set<nat> { set p | p in pairs :: p.1 }

  function Render(removed: seq<string>, added: seq<string>, pairs: Pairs): seq<string>
    requires forall p :: p in pairs ==> p.0 < |removed| && p.1 < |added|
  {
    seq(|pairs|, i requires 0 <= i < |pairs| => RenderPair(removed[pairs[i].0], added[pairs[i].1]))
  }

  function RenderPair(before: string, after: string): string {
    "\"" + before + "\" \U{2192} \"" + after + "\""
  }

  /** The first added item from `ai` on that is still free and similar, or none. */
  function FirstFree(words: Words, item: string, added: seq<string>, taken: set<nat>, ai: nat): (found: Option<nat>)
    requires ai <= |added|
    ensures found.Some? ==> ai <= found.value < |added| && found.value !in taken && Similar(words, item, added[found.value])
    ensures forall a: nat :: ai <= a < (if found.Some? then found.value else |added|) && a !in taken ==> !Similar(words, item, added[a])
    decreases |added| - ai
  {
    if ai == |added| then None
    else if ai !in taken && Similar(words, item, added[ai]) then Some(ai)
    else FirstFree(words, item, added, taken, ai + 1)
  }

  /** One turn of the outer loop: pair removed item `ri` with the first free similar one, if any. */
  function NextPairs(words: Words, removed: seq<string>, added: seq<string>, pairs: Pairs, ri: nat): Pairs
    requires ri < |removed|
  {
    match FirstFree(words, removed[ri], added, Rights(pairs), 0)
    case None => pairs
    case Some(ai) => pairs + [(ri, ai)]
  }

  /** The pairs the outer loop has found among the removed items below `n`. */
  function PairsUpTo(words: Words, removed: seq<string>, added: seq<string>, n: nat): (pairs: Pairs)
    requires n <= |removed|
    ensures SoFar(words, removed, added, pairs, n)
  {
    if n == 0 then
      SoFarEmpty(words, removed, added);
      []
    else
      var before := PairsUpTo(words, removed, added, n - 1);
      SoFarStep(words, removed, added, before, NextPairs(words, removed, added, before, n - 1), n - 1);
      NextPairs(words, removed, added, before, n - 1)
  }

  function GreedyPairs(words: Words, removed: seq<string>, added: seq<string>): Pairs {
    PairsUpTo(words, removed, added, |removed|)
  }

  /** The inner loop, with its `continue` and `break`. */
  method FirstSimilar(words: Words, item: string, added: seq<string>, matchedAdded: set<nat>) returns (found: Option<nat>)
    ensures found == FirstFree(words, item, added, matchedAdded, 0)
  {
    for ai := 0 to |added|
      invariant FirstFree(words, item, added, matchedAdded, 0) == FirstFree(words, item, added, matchedAdded, ai)
    {
      if ai in matchedAdded { continue; }
      if Similar(words, item, added[ai]) {
        return Some(ai);
      }
    }
    found := None;
  }

  method Filter(items: seq<string>, taken: set<nat>) returns (kept: seq<string>)
    ensures kept == Unmatched(items, taken)
  {
    kept := [];
    for i := 0 to |items|
      invariant kept == Unmatched(items[..i], taken)
    {
      assert items[..i + 1][..i] == items[..i];
      if i !in taken {
        kept := kept + [items[i]];
      }
    }
    assert items[..|items|] == items;
  }

  /** The pairs found among the removed items below `ri`. */
  ghost predicate SoFar(words: Words, removed: seq<string>, added: seq<string>, pairs: Pairs, ri: nat) {
    && OneToOne(pairs) && AllSimilar(words, removed, added, pairs) && FirstFit(words, removed, added, pairs, ri)
    && (forall p :: p in pairs ==> p.0 < ri)
  }

  lemma SoFarUnpaired(words: Words, removed: seq<string>, added: seq<string>, pairs: Pairs, ri: nat)
    requires SoFar(words, removed, added, pairs, ri) && ri < |removed|
    requires forall a: nat :: a < |added| && !Right(pairs, a) ==> !Similar(words, removed[ri], added[a])
    ensures SoFar(words, removed, added, pairs, ri + 1)
  {
    assert LeftOver(words, removed, added, pairs, ri) by {
      forall a: nat | a < |added| && Similar(words, removed[ri], added[a])
        ensures TakenBefore(pairs, ri, a)
      {
        assert Right(pairs, a);
      }
    }
  }

  lemma SoFarPaired(words: Words, removed: seq<string>, added: seq<string>, pairs: Pairs, ri: nat, ai: nat)
    requires SoFar(words, removed, added, pairs, ri) && ri < |removed|
    requires ai < |added| && !Right(pairs, ai) && Similar(words, removed[ri], added[ai])
    requires forall a: nat :: a < ai && !Right(pairs, a) ==> !Similar(words, removed[ri], added[a])
    ensures SoFar(words, removed, added, pairs + [(ri, ai)], ri + 1)
  {
    var more := pairs + [(ri, ai)];
    assert forall p :: p in more <==> p in pairs || p == (ri, ai);
    assert OneToOne(more) by {
      forall i | 0 <= i < |pairs| ensures pairs[i].0 != ri && pairs[i].1 != ai { assert pairs[i] in pairs; }
    }
    FirstFitPaired(words, removed, added, pairs, ri, ai);
  }

  lemma MorePairs(pairs: Pairs, x: (nat, nat))
    ensures forall r: nat :: Left(pairs + [x], r) <==> Left(pairs, r) || r == x.0
    ensures forall r: nat, a: nat :: TakenBefore(pairs, r, a) ==> TakenBefore(pairs + [x], r, a)
  {
    var more := pairs + [x];
    assert forall p :: p in more <==> p in pairs || p == x;
    forall r: nat ensures Left(pairs, r) ==> Left(more, r) { if Left(pairs, r) { var p :| p in pairs && p.0 == r; assert p in more; } }
    assert x in more;
    forall r: nat, a: nat ensures TakenBefore(pairs, r, a) ==> TakenBefore(more, r, a) {
      if TakenBefore(pairs, r, a) { var p :| p in pairs && p.0 < r && p.1 == a; assert p in more; }
    }
  }

  lemma FirstFitPaired(words: Words, removed: seq<string>, added: seq<string>, pairs: Pairs, ri: nat, ai: nat)
    requires SoFar(words, removed, added, pairs, ri) && ri < |removed| && ai < |added|
    requires forall a: nat :: a < ai && !Right(pairs, a) ==> !Similar(words, removed[ri], added[a])
    ensures FirstFit(words, removed, added, pairs + [(ri, ai)], ri + 1)
  {
    var more := pairs + [(ri, ai)];
    MorePairs(pairs, (ri, ai));
    assert forall p :: p in more <==> p in pairs || p == (ri, ai);
    forall i | 0 <= i < |pairs| ensures pairs[i].0 < ri { assert pairs[i] in pairs; }
    forall p | p in more
      ensures PassedOver(words, removed, added, more, p)
    {
      if p in pairs {
        assert PassedOver(words, removed, added, pairs, p);
      } else {
        forall a: nat | a < ai && Similar(words, removed[ri], added[a])
          ensures TakenBefore(more, ri, a)
        {
          var q :| q in pairs && q.1 == a;
          assert TakenBefore(pairs, ri, a);
        }
      }
    }
    forall r: nat | r < ri + 1
      ensures LeftOver(words, removed, added, more, r)
    {
      assert r < ri ==> LeftOver(words, removed, added, pairs, r);
    }
  }

  lemma RightsAre(pairs: Pairs)
    ensures forall a: nat :: a in Rights(pairs) <==> Right(pairs, a)
  {
  }

  lemma StepUnpaired(words: Words, removed: seq<string>, added: seq<string>, pairs: Pairs, ri: nat)
    requires SoFar(words, removed, added, pairs, ri) && ri < |removed|
    requires FirstFree(words, removed[ri], added, Rights(pairs), 0).None?
    ensures SoFar(words, removed, added, pairs, ri + 1)
  {
    RightsAre(pairs);
    forall a: nat | a < |added| && !Right(pairs, a) ensures !Similar(words, removed[ri], added[a]) {
      assert a !in Rights(pairs);
    }
    SoFarUnpaired(words, removed, added, pairs, ri);
  }

  lemma StepPaired(words: Words, removed: seq<string>, added: seq<string>, pairs: Pairs, ri: nat, ai: nat)
    requires SoFar(words, removed, added, pairs, ri) && ri < |removed|
    requires FirstFree(words, removed[ri], added, Rights(pairs), 0) == Some(ai)
    ensures SoFar(words, removed, added, pairs + [(ri, ai)], ri + 1)
  {
    RightsAre(pairs);
    assert !Right(pairs, ai);
    forall a: nat | a < ai && !Right(pairs, a) ensures !Similar(words, removed[ri], added[a]) {
      assert a !in Rights(pairs);
    }
    SoFarPaired(words, removed, added, pairs, ri, ai);
  }

  lemma SoFarEmpty(words: Words, removed: seq<string>, added: seq<string>)
    ensures SoFar(words, removed, added, [], 0)
  {
  }

  lemma SoFarStep(words: Words, removed: seq<string>, added: seq<string>, pairs: Pairs, next: Pairs, ri: nat)
    requires SoFar(words, removed, added, pairs, ri) && ri < |removed|
    requires next == NextPairs(words, removed, added, pairs, ri)
    ensures SoFar(words, removed, added, next, ri + 1)
  {
    match FirstFree(words, removed[ri], added, Rights(pairs), 0)
    case None => StepUnpaired(words, removed, added, pairs, ri);
    case Some(ai) => StepPaired(words, removed, added, pairs, ri, ai);
  }

  lemma PairsUpToNext(words: Words, removed: seq<string>, added: seq<string>, ri: nat)
    requires ri < |removed|
    ensures PairsUpTo(words, removed, added, ri + 1) == NextPairs(words, removed, added, PairsUpTo(words, removed, added, ri), ri)
  {
  }

  lemma TakenIsRight(pairs: Pairs, r: nat, a: nat)
    ensures TakenBefore(pairs, r, a) ==> Right(pairs, a)
  {
  }

  /** The pairing is one-to-one, pairs similar items only, leaves nothing similar unpaired, and is first fit. */
  lemma PairsAreGreedy(words: Words, removed: seq<string>, added: seq<string>)
    ensures Greedy(words, removed, added, GreedyPairs(words, removed, added))
    ensures forall p :: p in GreedyPairs(words, removed, added) ==>
              && p.0 < |removed| && p.1 < |added|
              && 2 * |words(removed[p.0]) * words(added[p.1])| > |words(removed[p.0]) + words(added[p.1])|
    ensures forall r: nat, a: nat :: r < |removed| && a < |added| && !Left(GreedyPairs(words, removed, added), r) && !Right(GreedyPairs(words, removed, added), a) ==>
              2 * |words(removed[r]) * words(added[a])| <= |words(removed[r]) + words(added[a])|
  {
    var pairs := GreedyPairs(words, removed, added);
    forall r: nat, a: nat | r < |removed| && a < |added| && !Left(pairs, r) && !Right(pairs, a)
      ensures !Similar(words, removed[r], added[a])
    {
      assert LeftOver(words, removed, added, pairs, r);
      TakenIsRight(pairs, r, a);
    }
  }

  function RenderAll(words: Words, removed: seq<string>, added: seq<string>, n: nat): seq<string>
    requires n <= |removed|
  {
    Render(removed, added, PairsUpTo(words, removed, added, n))
  }

  lemma PairSnoc(removed: seq<string>, added: seq<string>, pairs: Pairs, x: (nat, nat))
    requires x.0 < |removed| && x.1 < |added| && forall p :: p in pairs ==> p.0 < |removed| && p.1 < |added|
    ensures Lefts(pairs + [x]) == Lefts(pairs) + {x.0} && Rights(pairs + [x]) == Rights(pairs) + {x.1}
    ensures forall p :: p in pairs + [x] ==> p.0 < |removed| && p.1 < |added|
    ensures Render(removed, added, pairs + [x]) == Render(removed, added, pairs) + [RenderPair(removed[x.0], added[x.1])]
  {
    assert forall p :: p in pairs + [x] <==> p in pairs || p == x;
  }

  /** A pair is shown as the removed item and the added one, quoted, with an arrow between them. */
  lemma ModifiedMeans(words: Words, removed: seq<string>, added: seq<string>, k: nat)
    requires k < |GreedyPairs(words, removed, added)|
    ensures |RenderAll(words, removed, added, |removed|)| == |GreedyPairs(words, removed, added)|
    ensures var p := GreedyPairs(words, removed, added)[k];
      && p.0 < |removed| && p.1 < |added|
      && RenderAll(words, removed, added, |removed|)[k] == ['"'] + removed[p.0] + ['"', ' ', '\U{2192}', ' ', '"'] + added[p.1] + ['"']
  {
    var p := GreedyPairs(words, removed, added)[k];
    assert p in GreedyPairs(words, removed, added);
    assert "\"" == ['"'] && "\" \U{2192} \"" == ['"', ' ', '\U{2192}', ' ', '"'];
  }

  /** What one turn of the outer loop does to the pairs and to the two index sets. */
  lemma NextPair(words: Words, removed: seq<string>, added: seq<string>, n: nat)
    requires n < |removed|
    ensures var pairs, next := PairsUpTo(words, removed, added, n), PairsUpTo(words, removed, added, n + 1);
      match FirstFree(words, removed[n], added, Rights(pairs), 0)
      case None => next == pairs && RenderAll(words, removed, added, n + 1) == RenderAll(words, removed, added, n)
      case Some(a) =>
        && Lefts(next) == Lefts(pairs) + {n} && Rights(next) == Rights(pairs) + {a}
        && RenderAll(words, removed, added, n + 1) == RenderAll(words, removed, added, n) + [RenderPair(removed[n], added[a])]
  {
    var pairs := PairsUpTo(words, removed, added, n);
    PairsUpToNext(words, removed, added, n);
    match FirstFree(words, removed[n], added, Rights(pairs), 0)
    case None =>
    case Some(a) => PairSnoc(removed, added, pairs, (n, a));
  }

  /** The outer loop. */
  method PairUp(words: Words, removedItems: seq<string>, addedItems: seq<string>)
      returns (modified: seq<string>, matchedRemoved: set<nat>, matchedAdded: set<nat>)
    ensures var pairs := GreedyPairs(words, removedItems, addedItems);
      && matchedRemoved == Lefts(pairs) && matchedAdded == Rights(pairs)
      && modified == RenderAll(words, removedItems, addedItems, |removedItems|)
  {
    modified, matchedRemoved, matchedAdded := [], {}, {};
    for ri := 0 to |removedItems|
      invariant matchedRemoved == Lefts(PairsUpTo(words, removedItems, addedItems, ri))
      invariant matchedAdded == Rights(PairsUpTo(words, removedItems, addedItems, ri))
      invariant modified == RenderAll(words, removedItems, addedItems, ri)
    {
      NextPair(words, removedItems, addedItems, ri);
      var found := FirstSimilar(words, removedItems[ri], addedItems, matchedAdded);
      if found.Some? {
        modified := modified + [RenderPair(removedItems[ri], addedItems[found.value])];
        matchedRemoved, matchedAdded := matchedRemoved + {ri}, matchedAdded + {found.value};
      }
    }
  }

  /** `findModified`. */
  method FindModified(words: Words, removedItems: seq<string>, addedItems: seq<string>)
      returns (modified: seq<string>, stillRemoved: seq<string>, stillAdded: seq<string>)
    ensures var pairs := GreedyPairs(words, removedItems, addedItems);
      && modified == RenderAll(words, removedItems, addedItems, |removedItems|)
      && stillRemoved == Unmatched(removedItems, Lefts(pairs)) && stillAdded == Unmatched(addedItems, Rights(pairs))
  {
    var matchedRemoved, matchedAdded;
    modified, matchedRemoved, matchedAdded := PairUp(words, removedItems, addedItems);
    stillRemoved := Filter(removedItems, matchedRemoved);
    stillAdded := Filter(addedItems, matchedAdded);
  }

  // ---- The structured diff ---------------------------------------------------------------------

  /** `[...a].filter(item => !b.has(item))` over insertion-ordered sets. */
  function Difference(items: seq<string>, other: set<string>): seq<string> {
    if items == [] then [] else
    var before := Difference(items[..|items|-1], other);
    if items[|items|-1] in other then before else before + [items[|items|-1]]
  }

  datatype Sections = Sections(added: seq<string>, removed: seq<string>, modified: seq<string>)

  /** The items that are gone and those that are new, before pairing. */
  function RawRemoved(oldItems: seq<string>, newItems: seq<string>): seq<string> {
    Difference(Dedup(oldItems), Elements(newItems))
  }

  function RawAdded(oldItems: seq<string>, newItems: seq<string>): seq<string> {
    Difference(Dedup(newItems), Elements(oldItems))
  }

  function SectionsOf(words: Words, oldItems: seq<string>, newItems: seq<string>): Sections {
    var removed, added := RawRemoved(oldItems, newItems), RawAdded(oldItems, newItems);
    var pairs := GreedyPairs(words, removed, added);
    Sections(Unmatched(added, Rights(pairs)), Unmatched(removed, Lefts(pairs)), RenderAll(words, removed, added, |removed|))
  }

  /** `analyzeChanges` from the split items on; the contents are known to differ. */
  method AnalyzeChanges(words: Words, oldItems: seq<string>, newItems: seq<string>) returns (sections: Sections)
    ensures sections == SectionsOf(words, oldItems, newItems)
  {
    var rawRemoved, rawAdded := RawRemoved(oldItems, newItems), RawAdded(oldItems, newItems);
    var modified, stillRemoved, stillAdded := FindModified(words, rawRemoved, rawAdded);
    sections := Sections(stillAdded, stillRemoved, modified);
  }

  /** Each reworded pair of the two set differences is reported, and nothing else is reported as modified. */
  lemma SectionsModified(words: Words, oldItems: seq<string>, newItems: seq<string>, k: nat)
    ensures var removed, added := RawRemoved(oldItems, newItems), RawAdded(oldItems, newItems);
      var pairs, sections := GreedyPairs(words, removed, added), SectionsOf(words, oldItems, newItems);
      && |sections.modified| == |pairs|
      && (k < |pairs| ==>
            && pairs[k].0 < |removed| && pairs[k].1 < |added|
            && sections.modified[k] == ['"'] + removed[pairs[k].0] + ['"', ' ', '\U{2192}', ' ', '"'] + added[pairs[k].1] + ['"'])
  {
    var removed, added := RawRemoved(oldItems, newItems), RawAdded(oldItems, newItems);
    if k < |GreedyPairs(words, removed, added)| {
      ModifiedMeans(words, removed, added, k);
    }
  }

  /** `analyzeChanges`: equal contents have no changes; others are split into items. */
  method AnalyzeContents(words: Words, split: string -> seq<string>, oldContent: string, newContent: string)
      returns (changed: bool, sections: Sections)
    ensures changed <==> oldContent != newContent
    ensures !changed ==> sections == Sections([], [], [])
    ensures changed ==> sections == SectionsOf(words, split(oldContent), split(newContent))
  {
    changed := oldContent != newContent;
    if !changed {
      sections := Sections([], [], []);
    } else {
      sections := AnalyzeChanges(words, split(oldContent), split(newContent));
    }
  }

  lemma {:induction false} DifferenceIs(items: seq<string>, other: set<string>)
    ensures Elements(Difference(items, other)) == Elements(items) - other
    ensures Distinct(items) ==> Distinct(Difference(items, other))
  {
    if items != [] {
      var front, last := items[..|items|-1], items[|items|-1];
      DifferenceIs(front, other);
      assert items == front + [last];
      ElementsSnoc(front, last);
      var before := Difference(front, other);
      ElementsSnoc(before, last);
      assert forall i :: 0 <= i < |before| ==> before[i] in Elements(before);
    }
  }

  lemma {:induction false} UnmatchedIs(items: seq<string>, taken: set<nat>, x: string)
    ensures x in Unmatched(items, taken) <==> exists i :: 0 <= i < |items| && i !in taken && items[i] == x
  {
    if items != [] {
      UnmatchedIs(items[..|items|-1], taken, x);
    }
  }

  /** What is left over keeps its order: the items at the positions that are not taken. */
  lemma {:induction false} UnmatchedInOrder(items: seq<string>, taken: set<nat>) returns (at: seq<nat>)
    ensures |at| == |Unmatched(items, taken)|
    ensures forall k :: 0 <= k < |at| ==> at[k] < |items| && at[k] !in taken && Unmatched(items, taken)[k] == items[at[k]]
    ensures forall k, l :: 0 <= k < l < |at| ==> at[k] < at[l]
    ensures forall i: nat :: i < |items| && i !in taken ==> i in at
  {
    at := [];
    if items != [] {
      at := UnmatchedInOrder(items[..|items|-1], taken);
      if |items| - 1 !in taken {
        at := at + [|items| - 1];
      }
    }
  }

  /** A set difference keeps the order of the items. */
  lemma {:induction false} DifferenceInOrder(items: seq<string>, other: set<string>) returns (at: seq<nat>)
    ensures |at| == |Difference(items, other)|
    ensures forall k :: 0 <= k < |at| ==> at[k] < |items| && items[at[k]] !in other && Difference(items, other)[k] == items[at[k]]
    ensures forall k, l :: 0 <= k < l < |at| ==> at[k] < at[l]
    ensures forall i: nat :: i < |items| && items[i] !in other ==> i in at
  {
    at := [];
    if items != [] {
      at := DifferenceInOrder(items[..|items|-1], other);
      if items[|items|-1] !in other {
        at := at + [|items| - 1];
      }
    }
  }

  function LeftItems(removed: seq<string>, pairs: Pairs): set<string> {
    set p | p in pairs && p.0 < |removed| :: removed[p.0]
  }

  function RightItems(added: seq<string>, pairs: Pairs): set<string> {
    set p | p in pairs && p.1 < |added| :: added[p.1]
  }

  /** The reported sections and the paired items rebuild the new item set from the old one. */
  lemma SectionsRebuild(words: Words, oldItems: seq<string>, newItems: seq<string>)
    ensures var removed, added := RawRemoved(oldItems, newItems), RawAdded(oldItems, newItems);
      var pairs, sections := GreedyPairs(words, removed, added), SectionsOf(words, oldItems, newItems);
      Elements(oldItems) - (Elements(sections.removed) + LeftItems(removed, pairs))
      + (Elements(sections.added) + RightItems(added, pairs)) == Elements(newItems)
  {
    var removed, added := RawRemoved(oldItems, newItems), RawAdded(oldItems, newItems);
    assert Elements(Dedup(oldItems)) == Elements(oldItems) && Elements(Dedup(newItems)) == Elements(newItems);
    DifferenceIs(Dedup(oldItems), Elements(newItems));
    DifferenceIs(Dedup(newItems), Elements(oldItems));
    SplitLeft(removed, GreedyPairs(words, removed, added));
    SplitRight(added, GreedyPairs(words, removed, added));
  }

  lemma SplitLeft(items: seq<string>, pairs: Pairs)
    requires forall p :: p in pairs ==> p.0 < |items|
    ensures Elements(Unmatched(items, Lefts(pairs))) + LeftItems(items, pairs) == Elements(items)
  {
    forall x ensures x in Unmatched(items, Lefts(pairs)) ==> x in items { UnmatchedIs(items, Lefts(pairs), x); }
    forall i | 0 <= i < |items|
      ensures items[i] in Elements(Unmatched(items, Lefts(pairs))) + LeftItems(items, pairs)
    {
      UnmatchedIs(items, Lefts(pairs), items[i]);
      if i in Lefts(pairs) { var p :| p in pairs && p.0 == i; assert items[p.0] in LeftItems(items, pairs); }
    }
  }

  lemma SplitRight(items: seq<string>, pairs: Pairs)
    requires forall p :: p in pairs ==> p.1 < |items|
    ensures Elements(Unmatched(items, Rights(pairs))) + RightItems(items, pairs) == Elements(items)
  {
    forall x ensures x in Unmatched(items, Rights(pairs)) ==> x in items { UnmatchedIs(items, Rights(pairs), x); }
    forall i | 0 <= i < |items|
      ensures items[i] in Elements(Unmatched(items, Rights(pairs))) + RightItems(items, pairs)
    {
      UnmatchedIs(items, Rights(pairs), items[i]);
      if i in Rights(pairs) { var p :| p in pairs && p.1 == i; assert items[p.1] in RightItems(items, pairs); }
    }
  }

  // ---- Two greedy pairings are the same ----------------------------------------------------------

  /** First fit determines the pairing: any two pairings with the greedy properties pair the same positions. */
  lemma {:induction false} GreedyIsUnique(words: Words, removed: seq<string>, added: seq<string>, p: Pairs, q: Pairs, n: nat)
    requires Greedy(words, removed, added, p) && Greedy(words, removed, added, q)
    ensures forall x: (nat, nat) :: x.0 < n ==> (x in p <==> x in q)
  {
    if n > 0 {
      GreedyIsUnique(words, removed, added, p, q, n - 1);
      forall x: (nat, nat) | x.0 == n - 1
        ensures x in p <==> x in q
      {
        if x in p { PairedAlike(words, removed, added, p, q, x); }
        if x in q { PairedAlike(words, removed, added, q, p, x); }
      }
    }
  }

  lemma PairedAlike(words: Words, removed: seq<string>, added: seq<string>, p: Pairs, q: Pairs, x: (nat, nat))
    requires Greedy(words, removed, added, p) && Greedy(words, removed, added, q) && x in p
    requires forall y: (nat, nat) :: y.0 < x.0 ==> (y in p <==> y in q)
    ensures x in q
  {
    NotTakenEarlier(q, p, x);
    assert Left(q, x.0) by { assert LeftOver(words, removed, added, q, x.0); }
    var y :| y in q && y.0 == x.0;
    NotTakenEarlier(p, q, y);
    assert PassedOver(words, removed, added, q, y) && PassedOver(words, removed, added, p, x);
  }

  /** What one pairing pairs is not taken earlier by another that begins alike. */
  lemma NotTakenEarlier(p: Pairs, q: Pairs, x: (nat, nat))
    requires OneToOne(q) && x in q
    requires forall y: (nat, nat) :: y.0 < x.0 ==> (y in p <==> y in q)
    ensures !TakenBefore(p, x.0, x.1)
  {
    forall z | z in p && z.0 < x.0
      ensures z.1 != x.1
    {
      SamePair(q, x, z);
    }
  }

  /** A pairing has at most one pair for each added item. */
  lemma SamePair(p: Pairs, x: (nat, nat), y: (nat, nat))
    requires OneToOne(p) && x in p && y in p
    ensures x.1 == y.1 ==> x == y
  {
  }
}
