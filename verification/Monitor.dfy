/** The source monitor's scan cycle against the compliance service, with every remote call allowed to fail. */
module Monitor {
  import opened Common

  datatype Source = Source(id: string, url: string, lastContentHash: Option<string>)

  datatype Proposal = Proposal(sourceUrl: string, contentHash: string)

  /** The fate of a remote write: applied and confirmed, applied but reported as failed, or never applied. */
  datatype Delivery = Confirmed | Unconfirmed | Lost

  /** What the outside world does while one source is processed; `fetched` is the content hash, if the fetch works. */
  datatype Weather = Weather(fetched: Option<string>, propose: Delivery, patch: Delivery)

  datatype Service = Service(sources: seq<Source>, proposals: seq<Proposal>)

  datatype ScanResult = ScanResult(scanned: nat, changed: int, unaltered: nat, errors: nat,
                                   proposalsCreated: seq<Proposal>, errorDetails: seq<string>)

  ghost predicate DistinctIds(sources: seq<Source>) {
    forall i, j :: 0 <= i < j < |sources| ==> sources[i].id != sources[j].id
  }

  /** The hash the diff compares against: a missing one reads as the empty string. */
  function StoredHash(s: Source): string {
    if s.lastContentHash.Some? then s.lastContentHash.value else ""
  }

  function WithHash(sources: seq<Source>, id: string, hash: string): seq<Source> {
    seq(|sources|, i requires 0 <= i < |sources| =>
      if sources[i].id == id then sources[i].(lastContentHash := Some(hash)) else sources[i])
  }

  function Patched(s: Service, id: string, hash: string, d: Delivery): Service {
    if d == Lost then s else s.(sources := WithHash(s.sources, id, hash))
  }

  function Proposed(s: Service, p: Proposal, d: Delivery): Service {
    if d == Lost then s else s.(proposals := s.proposals + [p])
  }

  // ---- One cycle as a function of the service and the weather ----------------------------------

  datatype Tally = Tally(unaltered: nat, created: seq<Proposal>, failed: seq<string>)

  function Skip(t: Tally): Tally { t.(unaltered := t.unaltered + 1) }
  function Fail(t: Tally, id: string): Tally { t.(failed := t.failed + [id]) }
  function Create(t: Tally, p: Proposal): Tally { t.(created := t.created + [p]) }

  /** One source of a connected cycle. `listed` is the source as listed at the start of the cycle. */
  function ScanOne(s: Service, t: Tally, listed: Source, w: Weather): (Service, Tally) {
    match w.fetched
    case None => (s, Fail(t, listed.id))
    case Some(hash) =>
      if hash == StoredHash(listed) then (Patched(s, listed.id, hash, w.patch), Skip(t))
      else
        var p := Proposal(listed.url, hash);
        if w.propose == Confirmed then (Patched(Proposed(s, p, Confirmed), listed.id, hash, w.patch), Create(t, p))
        else (Proposed(s, p, w.propose), Fail(t, listed.id))
  }

  function ScanAll(s: Service, listed: seq<Source>, weather: nat -> Weather): (Service, Tally) {
    if listed == [] then (s, Tally(0, [], [])) else
    var (before, t) := ScanAll(s, listed[..|listed|-1], weather);
    ScanOne(before, t, listed[|listed|-1], weather(|listed| - 1))
  }

  /** A connected cycle lists the sources first and works on that list. */
  function Cycle(s: Service, weather: nat -> Weather): Service {
    ScanAll(s, s.sources, weather).0
  }

  // ---- The service and the agent ---------------------------------------------------------------

  class ComplianceService {
    var sources: seq<Source>
    var proposals: seq<Proposal>

    constructor (sources: seq<Source>)
      ensures Contents() == Service(sources, [])
    {
      this.sources, proposals := sources, [];
    }

    function Contents(): Service
      reads this
    {
      Service(sources, proposals)
    }

    /** `proposeUpdate`; false stands for the exception. */
    method ProposeUpdate(p: Proposal, d: Delivery) returns (ok: bool)
      modifies this`proposals
      ensures Contents() == Proposed(old(Contents()), p, d) && (ok <==> d == Confirmed)
    {
      if d != Lost {
        proposals := proposals + [p];
      }
      ok := d == Confirmed;
    }

    /** `updateSourceLastChecked`: best effort, a failure is only logged. */
    method UpdateSourceLastChecked(id: string, hash: string, d: Delivery)
      modifies this`sources
      ensures Contents() == Patched(old(Contents()), id, hash, d)
    {
      if d != Lost {
        sources := WithHash(sources, id, hash);
      }
    }
  }

  // ---- What a cycle makes of each source -------------------------------------------------------

  datatype Fate = Unaltered | Changed | Errored

  /** A source is in error when its fetch failed, or when its change could not be proposed; it is unaltered when the fetched
      hash is the stored one. A standalone cycle proposes nothing. */
  ghost predicate Meets(source: Source, w: Weather, connected: bool, fate: Fate) {
    var stored := match source.lastContentHash case Some(hash) => hash case None => "";
    match fate
    case Unaltered => w.fetched == Some(stored)
    case Errored => w.fetched == None || (connected && w.fetched != Some(stored) && w.propose != Confirmed)
    case Changed => w.fetched != None && w.fetched != Some(stored) && (connected ==> w.propose == Confirmed)
  }

  ghost function CountFate(listed: seq<Source>, weather: nat -> Weather, connected: bool, fate: Fate): nat {
    if listed == [] then 0 else
    CountFate(listed[..|listed|-1], weather, connected, fate) + if Meets(listed[|listed|-1], weather(|listed| - 1), connected, fate) then 1 else 0
  }

  /** The ids of the sources in error, in order. */
  ghost function ErroredIds(listed: seq<Source>, weather: nat -> Weather, connected: bool): seq<string> {
    if listed == [] then [] else
    ErroredIds(listed[..|listed|-1], weather, connected)
    + if Meets(listed[|listed|-1], weather(|listed| - 1), connected, Errored) then [listed[|listed|-1].id] else []
  }

  /** A proposal for each changed source with its URL and the fetched hash, in order. */
  ghost function ChangeProposals(listed: seq<Source>, weather: nat -> Weather): seq<Proposal> {
    if listed == [] then [] else
    var w := weather(|listed| - 1);
    ChangeProposals(listed[..|listed|-1], weather)
    + if Meets(listed[|listed|-1], w, true, Changed) then [Proposal(listed[|listed|-1].url, w.fetched.value)] else []
  }

  /** The tally of a connected cycle: what became of each source. */
  lemma {:induction false} CycleTallies(s: Service, listed: seq<Source>, weather: nat -> Weather)
    ensures var t := ScanAll(s, listed, weather).1;
      && t.unaltered == CountFate(listed, weather, true, Unaltered)
      && t.created == ChangeProposals(listed, weather) && |t.created| == CountFate(listed, weather, true, Changed)
      && t.failed == ErroredIds(listed, weather, true) && |t.failed| == CountFate(listed, weather, true, Errored)
  {
    if listed != [] {
      CycleTallies(s, listed[..|listed|-1], weather);
    }
  }

  /** The proposals the service got: those that were not lost, in order, whether or not the monitor heard of it. */
  ghost function Delivered(listed: seq<Source>, weather: nat -> Weather): seq<Proposal> {
    if listed == [] then [] else
    var source, w := listed[|listed|-1], weather(|listed| - 1);
    Delivered(listed[..|listed|-1], weather)
    + if w.fetched != None && !Meets(source, w, true, Unaltered) && w.propose != Lost then [Proposal(source.url, w.fetched.value)] else []
  }

  lemma {:induction false} CycleDelivers(s: Service, listed: seq<Source>, weather: nat -> Weather)
    ensures ScanAll(s, listed, weather).0.proposals == s.proposals + Delivered(listed, weather)
  {
    if listed == [] {
      assert s.proposals + [] == s.proposals;
    } else {
      var front := listed[..|listed|-1];
      CycleDelivers(s, front, weather);
      var source, w := listed[|listed|-1], weather(|listed| - 1);
      ConcatAssoc(s.proposals, Delivered(front, weather),
        if w.fetched != None && !Meets(source, w, true, Unaltered) && w.propose != Lost then [Proposal(source.url, w.fetched.value)] else []);
      assert ScanAll(s, front, weather).0.proposals + [] == ScanAll(s, front, weather).0.proposals;
    }
  }

  /** One turn of the source loop, the body of its `try`. */
  method ProcessSource(service: ComplianceService, source: Source, standaloneMode: bool, w: Weather, t: Tally) returns (after: Tally)
    modifies service
    ensures !standaloneMode ==> (service.Contents(), after) == ScanOne(old(service.Contents()), t, source, w)
    ensures standaloneMode ==> service.Contents() == old(service.Contents()) && after.created == t.created
    ensures standaloneMode ==> after.unaltered == t.unaltered + (if Meets(source, w, false, Unaltered) then 1 else 0)
    ensures standaloneMode ==> after.failed == t.failed + (if Meets(source, w, false, Errored) then [source.id] else [])
  {
    if w.fetched.None? {
      return Fail(t, source.id);
    }
    var hash := w.fetched.value;
    var previousHash := StoredHash(source);
    if previousHash == hash {
      if !standaloneMode {
        service.UpdateSourceLastChecked(source.id, hash, w.patch);
      }
      return Skip(t);
    }
    if standaloneMode {
      return t;
    }
    var proposal := Proposal(source.url, hash);
    var ok := service.ProposeUpdate(proposal, w.propose);
    if !ok {
      return Fail(t, source.id);
    }
    service.UpdateSourceLastChecked(source.id, hash, w.patch);
    after := Create(t, proposal);
  }

  /** Every source has one fate. */
  lemma {:induction false} FatesAddUp(listed: seq<Source>, weather: nat -> Weather, connected: bool)
    ensures CountFate(listed, weather, connected, Unaltered) + CountFate(listed, weather, connected, Changed)
            + CountFate(listed, weather, connected, Errored) == |listed|
    ensures |ErroredIds(listed, weather, connected)| == CountFate(listed, weather, connected, Errored)
  {
    if listed != [] {
      FatesAddUp(listed[..|listed|-1], weather, connected);
    }
  }

  /** `runScan`. With a sources file, or when the service cannot be reached, the cycle is standalone:
      it works on `local` and writes nothing. */
  method RunScan(service: ComplianceService, sourcesFile: bool, reachable: bool, local: seq<Source>, weather: nat -> Weather)
      returns (result: ScanResult)
    modifies service
    ensures !sourcesFile && reachable ==> service.Contents() == Cycle(old(service.Contents()), weather)
    ensures sourcesFile || !reachable ==> service.Contents() == old(service.Contents()) && result.proposalsCreated == []
    ensures !sourcesFile && reachable ==> result.proposalsCreated == ChangeProposals(old(service.sources), weather)
    ensures var connected := !sourcesFile && reachable; var listed := if connected then old(service.sources) else local;
      && result.scanned == |listed| && result.unaltered == CountFate(listed, weather, connected, Unaltered)
      && result.changed == CountFate(listed, weather, connected, Changed)
      && result.errors == CountFate(listed, weather, connected, Errored) && result.errorDetails == ErroredIds(listed, weather, connected)
    ensures result.scanned == result.changed + result.unaltered + result.errors
  {
    var standaloneMode := sourcesFile || !reachable;
    var sources := if standaloneMode then local else service.sources;
    ghost var start := service.Contents();
    var t := Tally(0, [], []);
    for i := 0 to |sources|
      invariant standaloneMode ==> service.Contents() == start && t.created == []
      invariant standaloneMode ==> t.unaltered == CountFate(sources[..i], weather, false, Unaltered)
      invariant standaloneMode ==> t.failed == ErroredIds(sources[..i], weather, false)
      invariant !standaloneMode ==> (service.Contents(), t) == ScanAll(start, sources[..i], weather)
    {
      assert sources[..i + 1][..i] == sources[..i];
      t := ProcessSource(service, sources[i], standaloneMode, weather(i), t);
    }
    assert sources[..|sources|] == sources;
    CycleTallies(start, sources, weather);
    FatesAddUp(sources, weather, !standaloneMode);
    var changed := if standaloneMode then |sources| - t.unaltered - |t.failed| else |t.created|;
    result := ScanResult(|sources|, changed, t.unaltered, |t.failed|, t.created, t.failed);
  }

  // ---- No lost change --------------------------------------------------------------------------

  ghost predicate SameSources(a: seq<Source>, b: seq<Source>) {
    |a| == |b| && forall i :: 0 <= i < |a| ==> a[i].id == b[i].id && a[i].url == b[i].url
  }

  ghost predicate HasProposal(proposals: seq<Proposal>, url: string, hash: string) {
    Proposal(url, hash) in proposals
  }

  /** The stored hash of every source is the earlier one, or that of a proposal made in between. */
  ghost predicate HashesJustified(before: Service, after: Service) {
    && SameSources(before.sources, after.sources)
    && before.proposals <= after.proposals
    && forall i :: 0 <= i < |before.sources| ==>
         StoredHash(after.sources[i]) == StoredHash(before.sources[i])
         || HasProposal(after.proposals[|before.proposals|..], after.sources[i].url, StoredHash(after.sources[i]))
  }

  /** Processing source k leaves every other source alone. */
  lemma PatchOne(sources: seq<Source>, k: nat, hash: string)
    requires DistinctIds(sources) && k < |sources|
    ensures WithHash(sources, sources[k].id, hash) == sources[k := sources[k].(lastContentHash := Some(hash))]
  {
  }

  /** While source k is processed, the sources after it are still as listed. */
  lemma {:induction false} ScanKeeps(s: Service, n: nat, weather: nat -> Weather)
    requires DistinctIds(s.sources) && n <= |s.sources|
    ensures var after := ScanAll(s, s.sources[..n], weather).0;
      && HashesJustified(s, after)
      && forall k :: n <= k < |s.sources| ==> after.sources[k] == s.sources[k]
  {
    if n > 0 {
      assert s.sources[..n][..n - 1] == s.sources[..n - 1];
      ScanKeeps(s, n - 1, weather);
      var (before, t) := ScanAll(s, s.sources[..n - 1], weather);
      ScanOneKeeps(s, before, t, n - 1, weather(n - 1));
    }
  }

  lemma ScanOneKeeps(s: Service, before: Service, t: Tally, k: nat, w: Weather)
    requires DistinctIds(s.sources) && k < |s.sources| && HashesJustified(s, before)
    requires forall j :: k <= j < |s.sources| ==> before.sources[j] == s.sources[j]
    ensures var after := ScanOne(before, t, s.sources[k], w).0;
      && HashesJustified(s, after)
      && forall j :: k < j < |s.sources| ==> after.sources[j] == s.sources[j]
  {
    var after := ScanOne(before, t, s.sources[k], w).0;
    var m := |s.proposals|;
    assert after.proposals[m..] == before.proposals[m..] + after.proposals[|before.proposals|..];
    if w.fetched.Some? {
      PatchOne(before.sources, k, w.fetched.value);
      if w.fetched.value != StoredHash(s.sources[k]) && w.propose == Confirmed {
        assert after.proposals[|before.proposals|] == Proposal(s.sources[k].url, w.fetched.value);
        assert Proposal(s.sources[k].url, w.fetched.value) in after.proposals[m..];
      }
    }
  }

  /** In one cycle a stored hash changes only together with a proposal carrying the new hash. */
  lemma CycleJustified(s: Service, weather: nat -> Weather)
    requires DistinctIds(s.sources)
    ensures HashesJustified(s, Cycle(s, weather)) && DistinctIds(Cycle(s, weather).sources)
  {
    ScanKeeps(s, |s.sources|, weather);
    assert s.sources[..|s.sources|] == s.sources;
  }

  /** Any number of connected cycles, each in its own weather. */
  function Cycles(s: Service, weathers: seq<nat -> Weather>): Service {
    if weathers == [] then s else Cycle(Cycles(s, weathers[..|weathers|-1]), weathers[|weathers|-1])
  }

  /** Over any sequence of cycles with any failures, no stored hash moves without a proposal for it. */
  lemma {:induction false} NoLostChange(s: Service, weathers: seq<nat -> Weather>)
    requires DistinctIds(s.sources)
    ensures HashesJustified(s, Cycles(s, weathers)) && DistinctIds(Cycles(s, weathers).sources)
  {
    if weathers != [] {
      var before := Cycles(s, weathers[..|weathers|-1]);
      NoLostChange(s, weathers[..|weathers|-1]);
      CycleJustified(before, weathers[|weathers|-1]);
      JustifiedTwice(s, before, Cycles(s, weathers));
    }
  }

  lemma JustifiedTwice(a: Service, b: Service, c: Service)
    requires HashesJustified(a, b) && HashesJustified(b, c)
    ensures HashesJustified(a, c)
  {
    var m, n := |a.proposals|, |b.proposals|;
    assert c.proposals[m..] == b.proposals[m..] + c.proposals[n..];
  }

  /** A change that was never proposed is seen again: after any cycles, if no proposal for this content was made,
      the next cycle that fetches it and gets through proposes it. */
  lemma UnproposedIsSeenAgain(s: Service, weathers: seq<nat -> Weather>, weather: nat -> Weather, k: nat, hash: string)
    requires DistinctIds(s.sources) && k < |s.sources| && StoredHash(s.sources[k]) != hash
    requires !HasProposal(Cycles(s, weathers).proposals, s.sources[k].url, hash)
    requires weather(k).fetched == Some(hash) && weather(k).propose == Confirmed
    ensures HasProposal(Cycle(Cycles(s, weathers), weather).proposals, s.sources[k].url, hash)
  {
    var now := Cycles(s, weathers);
    NoLostChange(s, weathers);
    assert forall p :: p in now.proposals[|s.proposals|..] ==> p in now.proposals;
    ProposedAt(now, |now.sources|, weather, k, hash);
    assert now.sources[..|now.sources|] == now.sources;
  }

  lemma {:induction false} ProposedAt(s: Service, n: nat, weather: nat -> Weather, k: nat, hash: string)
    requires DistinctIds(s.sources) && k < n <= |s.sources| && StoredHash(s.sources[k]) != hash
    requires weather(k).fetched == Some(hash) && weather(k).propose == Confirmed
    ensures HasProposal(ScanAll(s, s.sources[..n], weather).0.proposals, s.sources[k].url, hash)
  {
    assert s.sources[..n][..n - 1] == s.sources[..n - 1];
    if k < n - 1 {
      ProposedAt(s, n - 1, weather, k, hash);
    }
  }

  // ---- When a change is proposed again -----------------------------------------------------------

  /** The source as it is stored after it was processed. */
  function SourceAfter(listed: Source, w: Weather): Source {
    if w.fetched.Some? && w.patch != Lost && (w.fetched.value == StoredHash(listed) || w.propose == Confirmed)
    then listed.(lastContentHash := w.fetched) else listed
  }

  lemma {:induction false} StoredAfter(s: Service, n: nat, weather: nat -> Weather, k: nat)
    requires DistinctIds(s.sources) && k < n <= |s.sources|
    ensures |ScanAll(s, s.sources[..n], weather).0.sources| == |s.sources|
    ensures ScanAll(s, s.sources[..n], weather).0.sources[k] == SourceAfter(s.sources[k], weather(k))
  {
    assert s.sources[..n][..n - 1] == s.sources[..n - 1];
    ScanKeeps(s, n - 1, weather);
    var (before, t) := ScanAll(s, s.sources[..n - 1], weather);
    if k < n - 1 {
      StoredAfter(s, n - 1, weather, k);
    }
    if weather(n - 1).fetched.Some? {
      PatchOne(before.sources, n - 1, weather(n - 1).fetched.value);
    }
  }

  /** What a connected cycle leaves: the proposals that were not lost, and for each source the fetched hash if it is the
      stored one or was proposed and its update was not lost. */
  lemma CycleMeans(s: Service, weather: nat -> Weather, k: nat)
    requires DistinctIds(s.sources) && k < |s.sources|
    ensures var after, was, w := Cycle(s, weather), s.sources[k], weather(k);
      && after.proposals == s.proposals + Delivered(s.sources, weather)
      && |after.sources| == |s.sources| && after.sources[k].id == was.id && after.sources[k].url == was.url
      && after.sources[k].lastContentHash
         == if w.patch != Lost && (Meets(was, w, true, Unaltered) || Meets(was, w, true, Changed)) then w.fetched else was.lastContentHash
  {
    assert s.sources[..|s.sources|] == s.sources;
    CycleDelivers(s, s.sources, weather);
    StoredAfter(s, |s.sources|, weather, k);
  }

  /** The cycle reports a new proposal when it comes to source k. */
  predicate Proposes(s: Service, weather: nat -> Weather, k: nat)
    requires k < |s.sources|
  {
    |ScanAll(s, s.sources[..k + 1], weather).1.created| > |ScanAll(s, s.sources[..k], weather).1.created|
  }

  lemma ProposesIff(s: Service, weather: nat -> Weather, k: nat)
    requires k < |s.sources|
    ensures Proposes(s, weather, k) <==>
      weather(k).fetched.Some? && weather(k).fetched.value != StoredHash(s.sources[k]) && weather(k).propose == Confirmed
  {
    assert s.sources[..k + 1][..k] == s.sources[..k];
  }

  /** Content that one cycle proposed is proposed again by the next cycle that fetches it and gets through if and only if
      the update of the stored hash was lost. */
  lemma ProposedAgainIff(s: Service, first: nat -> Weather, second: nat -> Weather, k: nat)
    requires DistinctIds(s.sources) && k < |s.sources| && Proposes(s, first, k)
    requires second(k).fetched == first(k).fetched && second(k).propose == Confirmed
    ensures |Cycle(s, first).sources| == |s.sources|
    ensures Proposes(Cycle(s, first), second, k) <==> first(k).patch == Lost
  {
    assert s.sources[..|s.sources|] == s.sources;
    StoredAfter(s, |s.sources|, first, k);
    ProposesIff(s, first, k);
    ProposesIff(Cycle(s, first), second, k);
  }

  ghost predicate EveryPatchLost(weather: nat -> Weather) {
    forall k :: weather(k).patch == Lost
  }

  lemma {:induction false} LostPatchesKeepSources(s: Service, listed: seq<Source>, weather: nat -> Weather)
    requires EveryPatchLost(weather)
    ensures ScanAll(s, listed, weather).0.sources == s.sources
  {
    if listed != [] {
      LostPatchesKeepSources(s, listed[..|listed|-1], weather);
    }
  }

  /** Against a service that refuses every update of the stored hash, each cycle proposes the same change again. */
  lemma {:induction false} ProposedEveryTime(s: Service, weathers: seq<nat -> Weather>, weather: nat -> Weather, k: nat)
    requires forall i :: 0 <= i < |weathers| ==> EveryPatchLost(weathers[i])
    requires k < |s.sources|
    ensures Cycles(s, weathers).sources == s.sources
    ensures Proposes(Cycles(s, weathers), weather, k) <==> Proposes(s, weather, k)
  {
    if weathers != [] {
      var front := weathers[..|weathers|-1];
      ProposedEveryTime(s, front, weather, k);
      LostPatchesKeepSources(Cycles(s, front), s.sources, weathers[|weathers|-1]);
    }
    ProposesIff(Cycles(s, weathers), weather, k);
    ProposesIff(s, weather, k);
  }
}
