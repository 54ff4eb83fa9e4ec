/** The scan scheduler: ticks, and passes that claim every due schedule before starting it. */
module Scheduler {
  import opened Common

  datatype Schedule = Schedule(frequency: string, nextRunAt: int, enabled: bool)

  const DAY: int := 24 * 60 * 60 * 1000

  /** `computeNextRunAt`, in milliseconds. */
  function ComputeNextRunAt(frequency: string, from: int): (next: int)
    ensures next >= from + DAY
  {
    if frequency == "daily" then from + DAY
    else if frequency == "weekly" then from + 7 * DAY
    else if frequency == "monthly" then from + 30 * DAY
    else from + 7 * DAY
  }

  type Store = map<string, Schedule>

  predicate IsDue(store: Store, id: string, at: int) {
    id in store && store[id].nextRunAt <= at && store[id].enabled
  }

  /** What a pass is doing: reading the due schedules, or at position `next` of its list with that one claimed or not. */
  datatype Phase = Loading | Handling(due: seq<string>, frequencies: map<string, string>, next: nat, claimed: bool)

  datatype Pass = Pass(number: nat, at: int, phase: Phase)

  datatype Event =
    | Loaded(pass: nat, at: int, due: seq<string>)
    | Claimed(pass: nat, id: string, at: int, frequency: string, nextRunAt: int)
    | ClaimFailed(pass: nat, id: string, at: int)
    | Attempted(pass: nat, id: string, at: int, ok: bool)
    | PassEnded(pass: nat)

  /** `running` holds every pass under way. That it never holds two is proved, not built in. */
  datatype State = State(now: int, store: Store, inFlight: bool, running: seq<Pass>, passes: nat, history: seq<Event>)

  predicate Init(s: State) {
    !s.inFlight && s.running == [] && s.passes == 0 && s.history == []
  }

  /** The interval callback: a tick that finds the flag set does nothing. */
  function Tick(s: State): State {
    if s.inFlight then s
    else s.(inFlight := true, running := s.running + [Pass(s.passes, s.now, Loading)], passes := s.passes + 1)
  }

  function Finish(s: State, p: nat): State
    requires p < |s.running|
  {
    s.(inFlight := false, running := s.running[..p] + s.running[p + 1..], history := s.history + [PassEnded(s.running[p].number)])
  }

  /** `getDueSchedules` answers: all due schedules, in some order. */
  ghost predicate Loads(s: State, t: State, p: nat, due: seq<string>) {
    && p < |s.running| && s.running[p].phase == Loading
    && Distinct(due) && (forall id :: id in due <==> IsDue(s.store, id, s.running[p].at))
    && t == s.(running := s.running[p := s.running[p].(phase :=
              Handling(due, map id | id in due && id in s.store :: s.store[id].frequency, 0, false))],
            history := s.history + [Loaded(s.running[p].number, s.running[p].at, due)])
  }

  predicate CanClaim(s: State, p: nat) {
    && p < |s.running| && s.running[p].phase.Handling? && !s.running[p].phase.claimed
    && s.running[p].phase.next < |s.running[p].phase.due|
    && s.running[p].phase.due[s.running[p].phase.next] in s.running[p].phase.frequencies
  }

  /** The claim is written: last and next run move before the slow start. A deleted row is not recreated. */
  function Claim(s: State, p: nat): State
    requires CanClaim(s, p)
  {
    var pass := s.running[p];
    var id := pass.phase.due[pass.phase.next];
    var nextRunAt := ComputeNextRunAt(pass.phase.frequencies[id], pass.at);
    s.(running := s.running[p := pass.(phase := pass.phase.(claimed := true))],
       store := if id in s.store then s.store[id := s.store[id].(nextRunAt := nextRunAt)] else s.store,
       history := s.history + [Claimed(pass.number, id, pass.at, pass.phase.frequencies[id], nextRunAt)])
  }

  /** The claim could not be written: nothing is started, the pass goes on. */
  function FailClaim(s: State, p: nat): State
    requires CanClaim(s, p)
  {
    var pass := s.running[p];
    s.(running := s.running[p := pass.(phase := pass.phase.(next := pass.phase.next + 1))],
       history := s.history + [ClaimFailed(pass.number, pass.phase.due[pass.phase.next], pass.at)])
  }

  predicate CanStart(s: State, p: nat) {
    p < |s.running| && s.running[p].phase.Handling? && s.running[p].phase.claimed && s.running[p].phase.next < |s.running[p].phase.due|
  }

  /** The start of a claimed schedule ends, well or badly; the pass goes on. */
  function Start(s: State, p: nat, ok: bool): State
    requires CanStart(s, p)
  {
    var pass := s.running[p];
    s.(running := s.running[p := pass.(phase := pass.phase.(next := pass.phase.next + 1, claimed := false))],
       history := s.history + [Attempted(pass.number, pass.phase.due[pass.phase.next], pass.at, ok)])
  }

  predicate CanFinish(s: State, p: nat) {
    p < |s.running| && s.running[p].phase.Handling? && !s.running[p].phase.claimed && s.running[p].phase.next == |s.running[p].phase.due|
  }

  ghost predicate PassStep(s: State, t: State, p: nat) {
    || (exists due :: Loads(s, t, p, due))
    || (p < |s.running| && s.running[p].phase == Loading && t == Finish(s, p))   // reading the due schedules threw
    || (CanClaim(s, p) && (t == Claim(s, p) || t == FailClaim(s, p)))
    || (CanStart(s, p) && (t == Start(s, p, true) || t == Start(s, p, false)))
    || (CanFinish(s, p) && t == Finish(s, p))
  }

  /** An id no pass has ever come across. */
  ghost predicate FreshId(s: State, id: string) {
    && (forall i :: 0 <= i < |s.history| && s.history[i].Claimed? ==> s.history[i].id != id)
    && (forall p :: 0 <= p < |s.running| && s.running[p].phase.Handling? ==> id !in s.running[p].phase.due)
  }

  ghost predicate Creates(s: State, t: State, id: string, schedule: Schedule) {
    id !in s.store && FreshId(s, id) && t == s.(store := s.store[id := schedule])
  }

  /** Users create schedules under fresh ids, and pause, resume and delete them, at any moment. */
  ghost predicate UserStep(s: State, t: State) {
    || (exists id, schedule :: Creates(s, t, id, schedule))
    || (exists id :: id in s.store && (t == s.(store := s.store - {id})
          || exists enabled :: t == s.(store := s.store[id := s.store[id].(enabled := enabled)])))
  }

  ghost predicate Next(s: State, t: State) {
    || t == Tick(s)
    || (exists p: nat :: PassStep(s, t, p))
    || UserStep(s, t)
    || (s.now <= t.now && t == s.(now := t.now))
  }

  ghost predicate StepAt(states: seq<State>, i: nat)
    requires i + 1 < |states|
  {
    Next(states[i], states[i + 1])
  }

  ghost predicate Run(states: seq<State>) {
    && |states| > 0 && Init(states[0])
    && forall i :: 0 <= i < |states| - 1 ==> StepAt(states, i)
  }

  // ---- What the log of a run may look like ---------------------------------------------------

  /** Every attempt directly follows the claim of the same schedule in the same pass. */
  ghost predicate ClaimedFirst(h: seq<Event>) {
    forall j :: 0 <= j < |h| && h[j].Attempted? ==>
      j > 0 && h[j - 1].Claimed? && h[j - 1].pass == h[j].pass && h[j - 1].id == h[j].id && h[j - 1].at == h[j].at
  }

  /** A claim moves the next run to one period after the pass instant, and later claims come no sooner than that. */
  ghost predicate ClaimsApart(h: seq<Event>) {
    && (forall i :: 0 <= i < |h| && h[i].Claimed? ==> h[i].nextRunAt == ComputeNextRunAt(h[i].frequency, h[i].at))
    && (forall i, j :: 0 <= i < j < |h| && h[i].Claimed? && h[j].Claimed? && h[i].id == h[j].id ==> h[i].nextRunAt <= h[j].at)
  }

  /** Every claim before position `upTo` was followed by its attempt. */
  ghost predicate AttemptedBy(h: seq<Event>, upTo: nat) {
    forall i :: 0 <= i < upTo && i < |h| && h[i].Claimed? ==>
      i + 1 < |h| && h[i + 1].Attempted? && h[i + 1].pass == h[i].pass && h[i + 1].id == h[i].id
  }

  ghost predicate HandledIn(h: seq<Event>, upTo: nat, pass: nat, id: string) {
    exists i :: 0 <= i < upTo && i < |h| && (h[i].Claimed? || h[i].ClaimFailed?) && h[i].pass == pass && h[i].id == id
  }

  /** A pass that ended handled every schedule of its list, and every claim so far had its attempt. */
  ghost predicate EndedComplete(h: seq<Event>) {
    forall j :: 0 <= j < |h| && h[j].PassEnded? ==>
      && AttemptedBy(h, j)
      && forall i :: 0 <= i < j && h[i].Loaded? && h[i].pass == h[j].pass ==> forall id :: id in h[i].due ==> HandledIn(h, j, h[j].pass, id)
  }

  /** All claims of a pass carry the one instant of that pass. */
  ghost predicate OneInstant(h: seq<Event>) {
    forall i, j :: 0 <= i < |h| && 0 <= j < |h| && h[i].Claimed? && h[j].Claimed? && h[i].pass == h[j].pass ==> h[i].at == h[j].at
  }

  /** All claims of a schedule carry its one frequency. */
  ghost predicate OneFrequency(h: seq<Event>) {
    forall i, j :: 0 <= i < |h| && 0 <= j < |h| && h[i].Claimed? && h[j].Claimed? && h[i].id == h[j].id ==> h[i].frequency == h[j].frequency
  }

  ghost predicate Orderly(h: seq<Event>) {
    OneFrequency(h) && ClaimedFirst(h) && ClaimsApart(h) && EndedComplete(h) && OneInstant(h)
  }

  /** The frequency a schedule was claimed with is the stored one, as long as it is stored. */
  ghost predicate StoredFrequency(store: Store, h: seq<Event>) {
    forall i :: 0 <= i < |h| && h[i].Claimed? && h[i].id in store ==> store[h[i].id].frequency == h[i].frequency
  }

  ghost predicate Safe(s: State) {
    |s.running| <= 1 && (s.inFlight <==> |s.running| == 1) && Orderly(s.history) && StoredFrequency(s.store, s.history)
  }

  // ---- The inductive invariant ---------------------------------------------------------------

  /** No stored schedule is due before the time its claims moved it to. */
  ghost predicate StoreAhead(store: Store, h: seq<Event>) {
    forall i :: 0 <= i < |h| && h[i].Claimed? && h[i].id in store ==> store[h[i].id].nextRunAt >= h[i].nextRunAt
  }

  /** Earlier claims of a schedule ran out by `at`. */
  ghost predicate ClaimsOver(h: seq<Event>, id: string, at: int) {
    forall i :: 0 <= i < |h| && h[i].Claimed? && h[i].id == id ==> h[i].nextRunAt <= at
  }

  /** Schedules still to be claimed have no claim that reaches beyond the pass instant. */
  ghost predicate RestClaimable(h: seq<Event>, due: seq<string>, from: nat, at: int) {
    forall k :: from <= k < |due| ==> ClaimsOver(h, due[k], at)
  }

  ghost predicate HandledUpTo(h: seq<Event>, pass: nat, due: seq<string>, next: nat) {
    next <= |due| && forall k :: 0 <= k < next ==> HandledIn(h, |h|, pass, due[k])
  }

  ghost predicate LoadedAs(h: seq<Event>, pass: nat, due: seq<string>) {
    forall i :: 0 <= i < |h| && h[i].Loaded? && h[i].pass == pass ==> h[i].due == due
  }

  ghost predicate NumbersBelow(h: seq<Event>, bound: nat) {
    forall i :: 0 <= i < |h| ==> h[i].pass < bound
  }

  ghost predicate ClaimsAt(h: seq<Event>, pass: nat, at: int) {
    forall i :: 0 <= i < |h| && h[i].Claimed? && h[i].pass == pass ==> h[i].at == at
  }

  /** The last entry of the log is the claim a pass is about to start. */
  ghost predicate JustClaimed(h: seq<Event>, pass: Pass, id: string) {
    |h| > 0 && h[|h|-1].Claimed? && h[|h|-1].pass == pass.number && h[|h|-1].id == id && h[|h|-1].at == pass.at
  }

  ghost predicate PassInv(pass: Pass, h: seq<Event>) {
    match pass.phase
    case Loading => AttemptedBy(h, |h|) && NumbersBelow(h, pass.number)
    case Handling(due, frequencies, next, claimed) =>
      && Distinct(due) && LoadedAs(h, pass.number, due) && HandledUpTo(h, pass.number, due, next) && ClaimsAt(h, pass.number, pass.at)
      && (if claimed then next < |due| && JustClaimed(h, pass, due[next]) && AttemptedBy(h, |h| - 1) && RestClaimable(h, due, next + 1, pass.at)
          else AttemptedBy(h, |h|) && RestClaimable(h, due, next, pass.at))
  }

  /** What a pass read of a schedule's frequency is what is stored and what was claimed before. */
  ghost predicate ReadAs(pass: Pass, store: Store, h: seq<Event>) {
    pass.phase.Handling? ==> forall id :: id in pass.phase.due && id in pass.phase.frequencies ==>
      && (id in store ==> store[id].frequency == pass.phase.frequencies[id])
      && ClaimedAs(h, id, pass.phase.frequencies[id])
  }

  ghost predicate ClaimedAs(h: seq<Event>, id: string, frequency: string) {
    forall i :: 0 <= i < |h| && h[i].Claimed? && h[i].id == id ==> h[i].frequency == frequency
  }

  ghost predicate Frequencies(s: State) {
    forall p :: 0 <= p < |s.running| ==> ReadAs(s.running[p], s.store, s.history)
  }

  ghost predicate Inv(s: State) {
    && Safe(s) && Frequencies(s) && StoreAhead(s.store, s.history) && NumbersBelow(s.history, s.passes)
    && (if |s.running| == 0 then AttemptedBy(s.history, |s.history|)
        else s.running[0].number + 1 == s.passes && PassInv(s.running[0], s.history))
  }

  // ---- Appending one event to the log --------------------------------------------------------

  lemma StillHandled(h: seq<Event>, e: Event, upTo: nat, pass: nat, id: string)
    requires upTo <= |h| && HandledIn(h, upTo, pass, id)
    ensures HandledIn(h + [e], upTo, pass, id) && HandledIn(h + [e], |h| + 1, pass, id)
  {
    var i :| 0 <= i < upTo && (h[i].Claimed? || h[i].ClaimFailed?) && h[i].pass == pass && h[i].id == id;
    assert (h + [e])[i] == h[i];
  }

  ghost predicate AllHandled(h: seq<Event>, pass: nat) {
    forall i :: 0 <= i < |h| && h[i].Loaded? && h[i].pass == pass ==> forall id :: id in h[i].due ==> HandledIn(h, |h|, pass, id)
  }

  lemma AppendEnded(h: seq<Event>, e: Event)
    requires EndedComplete(h)
    requires e.PassEnded? ==> AttemptedBy(h, |h|) && AllHandled(h, e.pass)
    ensures EndedComplete(h + [e])
  {
    var g := h + [e];
    assert forall i :: 0 <= i < |h| ==> g[i] == h[i];
    forall j | 0 <= j < |g| && g[j].PassEnded?
      ensures AttemptedBy(g, j)
      ensures forall i :: 0 <= i < j && g[i].Loaded? && g[i].pass == g[j].pass ==> forall id :: id in g[i].due ==> HandledIn(g, j, g[j].pass, id)
    {
      assert AttemptedBy(h, j);
      forall i, id | 0 <= i < j && g[i].Loaded? && g[i].pass == g[j].pass && id in g[i].due
        ensures HandledIn(g, j, g[j].pass, id)
      {
        StillHandled(h, e, j, g[j].pass, id);
      }
    }
  }

  lemma AppendClaimedFirst(h: seq<Event>, e: Event)
    requires ClaimedFirst(h)
    requires e.Attempted? ==> |h| > 0 && h[|h|-1].Claimed? && h[|h|-1].pass == e.pass && h[|h|-1].id == e.id && h[|h|-1].at == e.at
    ensures ClaimedFirst(h + [e])
  {
    assert forall i :: 0 <= i < |h| ==> (h + [e])[i] == h[i];
  }

  lemma AppendApart(h: seq<Event>, e: Event)
    requires ClaimsApart(h)
    requires e.Claimed? ==> e.nextRunAt == ComputeNextRunAt(e.frequency, e.at) && ClaimsOver(h, e.id, e.at)
    ensures ClaimsApart(h + [e])
  {
    assert forall i :: 0 <= i < |h| ==> (h + [e])[i] == h[i];
  }

  lemma AppendInstant(h: seq<Event>, e: Event)
    requires OneInstant(h) && OneFrequency(h)
    requires e.Claimed? ==> ClaimsAt(h, e.pass, e.at) && ClaimedAs(h, e.id, e.frequency)
    ensures OneInstant(h + [e]) && OneFrequency(h + [e])
  {
    assert forall i :: 0 <= i < |h| ==> (h + [e])[i] == h[i];
  }

  lemma AppendOrderly(h: seq<Event>, e: Event)
    requires Orderly(h)
    requires e.PassEnded? ==> AttemptedBy(h, |h|) && AllHandled(h, e.pass)
    requires e.Attempted? ==> |h| > 0 && h[|h|-1].Claimed? && h[|h|-1].pass == e.pass && h[|h|-1].id == e.id && h[|h|-1].at == e.at
    requires e.Claimed? ==> e.nextRunAt == ComputeNextRunAt(e.frequency, e.at) && ClaimsOver(h, e.id, e.at) && ClaimsAt(h, e.pass, e.at)
                            && ClaimedAs(h, e.id, e.frequency)
    ensures Orderly(h + [e])
  {
    AppendEnded(h, e);
    AppendClaimedFirst(h, e);
    AppendApart(h, e);
    AppendInstant(h, e);
  }

  lemma AppendAttempted(h: seq<Event>, e: Event)
    ensures AttemptedBy(h, |h|) ==> AttemptedBy(h + [e], if e.Claimed? then |h| else |h| + 1)
    ensures (|h| > 0 && AttemptedBy(h, |h| - 1) && h[|h|-1].Claimed? && e.Attempted? && e.pass == h[|h|-1].pass && e.id == h[|h|-1].id) ==>
              AttemptedBy(h + [e], |h| + 1)
  {
    var g := h + [e];
    assert forall i :: 0 <= i < |h| ==> g[i] == h[i];
  }

  lemma AppendHandled(h: seq<Event>, e: Event, pass: nat, due: seq<string>, next: nat)
    requires HandledUpTo(h, pass, due, next)
    ensures HandledUpTo(h + [e], pass, due, next)
    ensures next < |due| && (e.Claimed? || e.ClaimFailed?) && e.pass == pass && e.id == due[next] ==> HandledUpTo(h + [e], pass, due, next + 1)
  {
    forall k | 0 <= k < next
      ensures HandledIn(h + [e], |h| + 1, pass, due[k])
    {
      StillHandled(h, e, |h|, pass, due[k]);
    }
    assert (h + [e])[|h|] == e;
  }

  lemma AppendRest(h: seq<Event>, e: Event, due: seq<string>, from: nat, at: int)
    requires RestClaimable(h, due, from, at)
    requires e.Claimed? ==> forall k :: from <= k < |due| ==> due[k] != e.id
    ensures RestClaimable(h + [e], due, from, at)
  {
    var g := h + [e];
    assert forall i :: 0 <= i < |h| ==> g[i] == h[i];
    forall k | from <= k < |due|
      ensures ClaimsOver(g, due[k], at)
    {
      assert ClaimsOver(h, due[k], at);
    }
  }

  lemma AppendNumbers(h: seq<Event>, e: Event, bound: nat, pass: nat, due: seq<string>)
    requires NumbersBelow(h, bound) && e.pass < bound
    ensures NumbersBelow(h + [e], bound)
    ensures forall at :: ClaimsAt(h, pass, at) && (e.Claimed? ==> e.at == at) ==> ClaimsAt(h + [e], pass, at)
    ensures LoadedAs(h, pass, due) && !e.Loaded? ==> LoadedAs(h + [e], pass, due)
  {
  }

  lemma AppendStore(store: Store, h: seq<Event>, e: Event)
    requires StoreAhead(store, h)
    requires e.Claimed? ==> (e.id in store ==> store[e.id].nextRunAt >= e.nextRunAt)
    ensures StoreAhead(store, h + [e])
    ensures StoredFrequency(store, h) && (e.Claimed? && e.id in store ==> store[e.id].frequency == e.frequency) ==>
              StoredFrequency(store, h + [e])
  {
  }

  lemma AppendRead(pass: Pass, store: Store, h: seq<Event>, e: Event)
    requires ReadAs(pass, store, h)
    requires e.Claimed? && pass.phase.Handling? && e.id in pass.phase.due && e.id in pass.phase.frequencies ==>
               e.frequency == pass.phase.frequencies[e.id]
    ensures ReadAs(pass, store, h + [e])
  {
    if pass.phase.Handling? {
      forall id | id in pass.phase.due && id in pass.phase.frequencies
        ensures ClaimedAs(h + [e], id, pass.phase.frequencies[id])
      {
        assert ClaimedAs(h, id, pass.phase.frequencies[id]);
      }
    }
  }

  lemma LoadKeeps(s: State, t: State, due: seq<string>)
    requires Inv(s) && Loads(s, t, 0, due)
    ensures Inv(t)
  {
    var h, pass := s.history, s.running[0];
    var e := Loaded(pass.number, pass.at, due);
    AppendOrderly(h, e);
    AppendAttempted(h, e);
    AppendStore(s.store, h, e);
    AppendNumbers(h, e, s.passes, pass.number, due);
    assert RestClaimable(h, due, 0, pass.at) by {
      forall k | 0 <= k < |due|
        ensures ClaimsOver(h, due[k], pass.at)
      {
        assert due[k] in due;
      }
    }
    AppendRest(h, e, due, 0, pass.at);
    assert LoadedAs(h + [e], pass.number, due);
    assert ReadAs(t.running[0], s.store, h);
    AppendRead(t.running[0], s.store, h, e);
  }

  /** A pass at the end of its list has handled all of it. */
  lemma ListIsHandled(h: seq<Event>, pass: nat, due: seq<string>)
    requires HandledUpTo(h, pass, due, |due|) && LoadedAs(h, pass, due)
    ensures AllHandled(h, pass)
  {
    forall id | id in due
      ensures HandledIn(h, |h|, pass, id)
    {
      var k :| 0 <= k < |due| && due[k] == id;
    }
  }

  lemma NothingLoaded(h: seq<Event>, pass: nat)
    requires NumbersBelow(h, pass)
    ensures AllHandled(h, pass)
  {
  }

  lemma AppendPassEnd(store: Store, h: seq<Event>, pass: nat, passes: nat)
    requires Orderly(h) && AttemptedBy(h, |h|) && AllHandled(h, pass)
    requires StoreAhead(store, h) && StoredFrequency(store, h) && NumbersBelow(h, passes) && pass < passes
    ensures var g := h + [PassEnded(pass)];
      Orderly(g) && AttemptedBy(g, |g|) && StoreAhead(store, g) && StoredFrequency(store, g) && NumbersBelow(g, passes)
  {
    var e := PassEnded(pass);
    AppendOrderly(h, e);
    AppendAttempted(h, e);
    AppendStore(store, h, e);
    AppendNumbers(h, e, passes, pass, []);
  }

  lemma FinishKeeps(s: State)
    requires Inv(s) && |s.running| == 1 && (s.running[0].phase == Loading || CanFinish(s, 0))
    ensures Inv(Finish(s, 0))
  {
    var h, pass := s.history, s.running[0];
    if pass.phase.Handling? {
      ListIsHandled(h, pass.number, pass.phase.due);
    } else {
      NothingLoaded(h, pass.number);
    }
    AppendPassEnd(s.store, h, pass.number, s.passes);
    assert Finish(s, 0).running == [];
  }

  lemma ClaimKeeps(s: State)
    requires Inv(s) && CanClaim(s, 0)
    ensures Inv(Claim(s, 0))
  {
    var h, pass, t := s.history, s.running[0], Claim(s, 0);
    var due, next := pass.phase.due, pass.phase.next;
    var frequency := pass.phase.frequencies[due[next]];
    var e := Claimed(pass.number, due[next], pass.at, frequency, ComputeNextRunAt(frequency, pass.at));
    assert ClaimsOver(h, due[next], pass.at);
    assert ReadAs(pass, s.store, h) && due[next] in due;
    assert ReadAs(t.running[0], t.store, h);
    AppendRead(t.running[0], t.store, h, e);
    AppendOrderly(h, e);
    AppendAttempted(h, e);
    AppendHandled(h, e, pass.number, due, next);
    AppendNumbers(h, e, s.passes, pass.number, due);
    assert StoreAhead(t.store, h);
    AppendStore(t.store, h, e);
    assert RestClaimable(h, due, next + 1, pass.at);
    AppendRest(h, e, due, next + 1, pass.at);
  }

  lemma FailClaimKeeps(s: State)
    requires Inv(s) && CanClaim(s, 0)
    ensures Inv(FailClaim(s, 0))
  {
    var h, pass := s.history, s.running[0];
    var due, next := pass.phase.due, pass.phase.next;
    var e := ClaimFailed(pass.number, due[next], pass.at);
    assert ReadAs(FailClaim(s, 0).running[0], s.store, h);
    AppendRead(FailClaim(s, 0).running[0], s.store, h, e);
    AppendOrderly(h, e);
    AppendAttempted(h, e);
    AppendHandled(h, e, pass.number, due, next);
    AppendNumbers(h, e, s.passes, pass.number, due);
    AppendStore(s.store, h, e);
    assert RestClaimable(h, due, next + 1, pass.at);
    AppendRest(h, e, due, next + 1, pass.at);
  }

  lemma StartKeepsLog(s: State, ok: bool)
    requires Inv(s) && CanStart(s, 0)
    ensures var t := Start(s, 0, ok);
      Orderly(t.history) && StoreAhead(t.store, t.history) && StoredFrequency(t.store, t.history) && NumbersBelow(t.history, t.passes)
      && Frequencies(t)
  {
    var h, pass := s.history, s.running[0];
    var due, next := pass.phase.due, pass.phase.next;
    var e := Attempted(pass.number, due[next], pass.at, ok);
    assert ReadAs(Start(s, 0, ok).running[0], s.store, h);
    AppendRead(Start(s, 0, ok).running[0], s.store, h, e);
    AppendOrderly(h, e);
    AppendNumbers(h, e, s.passes, pass.number, due);
    AppendStore(s.store, h, e);
  }

  lemma StartKeepsPass(s: State, ok: bool)
    requires Inv(s) && CanStart(s, 0)
    ensures PassInv(Start(s, 0, ok).running[0], Start(s, 0, ok).history)
  {
    var h, pass := s.history, s.running[0];
    var due, next := pass.phase.due, pass.phase.next;
    var e := Attempted(pass.number, due[next], pass.at, ok);
    AppendAttempted(h, e);
    AppendHandled(h, e, pass.number, due, next);
    assert HandledUpTo(h + [e], pass.number, due, next + 1) by {
      assert (h + [e])[|h| - 1] == h[|h| - 1];
      assert HandledIn(h + [e], |h| + 1, pass.number, due[next]);
    }
    AppendNumbers(h, e, s.passes, pass.number, due);
    AppendRest(h, e, due, next + 1, pass.at);
  }

  lemma StartKeeps(s: State, ok: bool)
    requires Inv(s) && CanStart(s, 0)
    ensures Inv(Start(s, 0, ok))
  {
    StartKeepsLog(s, ok);
    StartKeepsPass(s, ok);
  }

  lemma PassStepKeeps(s: State, t: State)
    requires Inv(s) && PassStep(s, t, 0)
    ensures Inv(t)
  {
    if due :| Loads(s, t, 0, due) {
      LoadKeeps(s, t, due);
    } else if CanClaim(s, 0) {
      ClaimKeeps(s);
      FailClaimKeeps(s);
    } else if CanStart(s, 0) {
      StartKeeps(s, true);
      StartKeeps(s, false);
    } else {
      FinishKeeps(s);
    }
  }

  lemma TickKeeps(s: State)
    requires Inv(s)
    ensures Inv(Tick(s))
  {
  }

  /** What users do changes the store only. */
  lemma StoreChangeKeeps(s: State, t: State)
    requires Inv(s) && t == s.(store := t.store)
    requires StoreAhead(t.store, s.history) && StoredFrequency(t.store, s.history) && Frequencies(t)
    ensures Inv(t)
  {
  }

  lemma CreateKeeps(s: State, t: State, id: string, schedule: Schedule)
    requires Inv(s) && Creates(s, t, id, schedule)
    ensures Inv(t)
  {
    assert StoreAhead(t.store, s.history) && StoredFrequency(t.store, s.history);
    forall p | 0 <= p < |t.running| ensures ReadAs(t.running[p], t.store, t.history) { assert ReadAs(s.running[p], s.store, s.history); }
    StoreChangeKeeps(s, t);
  }

  lemma EditKeeps(s: State, t: State)
    requires Inv(s) && t == s.(store := t.store) && t.store.Keys <= s.store.Keys
    requires forall id :: id in t.store ==> t.store[id].nextRunAt == s.store[id].nextRunAt && t.store[id].frequency == s.store[id].frequency
    ensures Inv(t)
  {
    forall id | id in t.store ensures id in s.store { assert id in t.store.Keys; }
    assert StoreAhead(t.store, s.history) && StoredFrequency(t.store, s.history);
    forall p | 0 <= p < |t.running| ensures ReadAs(t.running[p], t.store, t.history) { assert ReadAs(s.running[p], s.store, s.history); }
    StoreChangeKeeps(s, t);
  }

  lemma UserStepKeeps(s: State, t: State)
    requires Inv(s) && UserStep(s, t)
    ensures Inv(t)
  {
    if id, schedule :| Creates(s, t, id, schedule) {
      CreateKeeps(s, t, id, schedule);
    } else {
      EditKeeps(s, t);
    }
  }

  lemma NextKeeps(s: State, t: State)
    requires Inv(s) && Next(s, t)
    ensures Inv(t)
  {
    if t == Tick(s) {
      TickKeeps(s);
    } else if UserStep(s, t) {
      UserStepKeeps(s, t);
    } else if p: nat :| PassStep(s, t, p) {
      PassStepKeeps(s, t);
    }
  }

  lemma {:induction false} RunKeeps(states: seq<State>, i: nat)
    requires Run(states) && i < |states|
    ensures Inv(states[i])
  {
    if i == 0 {
      InitHolds(states[0]);
    } else {
      RunKeeps(states, i - 1);
      StepKeeps(states, i - 1);
    }
  }

  lemma StepKeeps(states: seq<State>, i: nat)
    requires Run(states) && i + 1 < |states| && Inv(states[i])
    ensures Inv(states[i + 1])
  {
    assert StepAt(states, i);
    NextKeeps(states[i], states[i + 1]);
  }

  lemma InitHolds(s: State)
    requires Init(s)
    ensures Inv(s)
  {
  }

  // ---- Main results --------------------------------------------------------------------------

  /** Passes never overlap, and every log of every run is orderly. */
  lemma EveryRunIsSafe(states: seq<State>, i: nat)
    requires Run(states) && i < |states|
    ensures Safe(states[i])
  {
    RunKeeps(states, i);
  }

  /** Two starts of one schedule are a period of it apart, at least a day, and the claim right before the first moved
      its next run past the first instant and no further than the second. */
  lemma StartsAreClaimedApart(states: seq<State>, n: nat, i: nat, j: nat)
    requires Run(states) && n < |states|
    requires i < j < |states[n].history| && states[n].history[i].Attempted? && states[n].history[j].Attempted?
    requires states[n].history[i].id == states[n].history[j].id
    ensures var h := states[n].history;
      && i > 0 && h[i - 1].Claimed? && h[i - 1].id == h[i].id
      && h[i].at < h[i - 1].nextRunAt <= h[j].at
      && h[i - 1].nextRunAt - h[i].at
         == (match h[i - 1].frequency
             case "daily" => 86_400_000
             case "monthly" => 2_592_000_000
             case _ => 604_800_000)
      && (h[i].id in states[n].store ==> states[n].store[h[i].id].frequency == h[i - 1].frequency)
  {
    RunKeeps(states, n);
    var h := states[n].history;
    assert h[i - 1].Claimed? && h[j - 1].Claimed?;
  }

  // ---- What a pass loads ---------------------------------------------------------------------

  /** A step of a pass appends one event, which tells what the step was. */
  lemma PassStepAppends(s: State, t: State, p: nat) returns (e: Event)
    requires PassStep(s, t, p)
    ensures t.history == s.history + [e]
    ensures e.Loaded? ==> p < |s.running| && e.at == s.running[p].at && Loads(s, t, p, e.due)
  {
    if due :| Loads(s, t, p, due) {
      e := Loaded(s.running[p].number, s.running[p].at, due);
    } else if CanClaim(s, p) && t == Claim(s, p) {
      var pass := s.running[p];
      var id := pass.phase.due[pass.phase.next];
      e := Claimed(pass.number, id, pass.at, pass.phase.frequencies[id], ComputeNextRunAt(pass.phase.frequencies[id], pass.at));
    } else if CanClaim(s, p) && t == FailClaim(s, p) {
      e := ClaimFailed(s.running[p].number, s.running[p].phase.due[s.running[p].phase.next], s.running[p].at);
    } else if CanStart(s, p) && t == Start(s, p, true) {
      e := Attempted(s.running[p].number, s.running[p].phase.due[s.running[p].phase.next], s.running[p].at, true);
    } else if CanStart(s, p) && t == Start(s, p, false) {
      e := Attempted(s.running[p].number, s.running[p].phase.due[s.running[p].phase.next], s.running[p].at, false);
    } else {
      e := PassEnded(s.running[p].number);
    }
  }

  lemma OtherStepAppends(s: State, t: State)
    requires t == Tick(s) || UserStep(s, t) || (s.now <= t.now && t == s.(now := t.now))
    ensures t.history == s.history
  {
  }

  /** One step appends at most one event. */
  lemma NextAppends(s: State, t: State)
    requires Next(s, t)
    ensures t.history == s.history || exists e :: t.history == s.history + [e]
  {
    if p: nat :| PassStep(s, t, p) {
      var e := PassStepAppends(s, t, p);
    } else {
      OtherStepAppends(s, t);
    }
  }

  ghost predicate Appends(states: seq<State>, i: nat, e: Event)
    requires i + 1 < |states|
  {
    states[i + 1].history == states[i].history + [e]
  }

  /** Every event of a log was appended by one step. */
  lemma {:induction false} AppendedBy(states: seq<State>, n: nat, k: nat) returns (i: nat)
    requires Run(states) && n < |states| && k < |states[n].history|
    ensures i < n && |states[i].history| == k && Appends(states, i, states[n].history[k])
  {
    assert n > 0;
    assert StepAt(states, n - 1);
    NextAppends(states[n - 1], states[n]);
    if k < |states[n - 1].history| {
      i := AppendedBy(states, n - 1, k);
    } else {
      i := n - 1;
    }
  }

  /** A pass loads exactly the schedules that are stored, enabled and have a next run no later than the pass instant. */
  lemma LoadsTheDue(states: seq<State>, i: nat, pass: nat, at: int, due: seq<string>)
    requires Run(states) && i + 1 < |states| && Appends(states, i, Loaded(pass, at, due))
    ensures Distinct(due)
    ensures forall id :: id in due <==> id in states[i].store && states[i].store[id].enabled && states[i].store[id].nextRunAt <= at
  {
    var s, t := states[i], states[i + 1];
    assert StepAt(states, i);
    assert t.history[|s.history|] == Loaded(pass, at, due);
    LoadedStep(s, t, pass, at, due);
  }

  lemma LoadedStep(s: State, t: State, pass: nat, at: int, due: seq<string>)
    requires Next(s, t) && t.history == s.history + [Loaded(pass, at, due)]
    ensures Distinct(due) && forall id :: id in due <==> id in s.store && s.store[id].enabled && s.store[id].nextRunAt <= at
  {
    assert t.history[|s.history|] == Loaded(pass, at, due);
    if p: nat :| PassStep(s, t, p) {
      var e := PassStepAppends(s, t, p);
      assert e == t.history[|s.history|];
    } else {
      OtherStepAppends(s, t);
    }
  }

  /** The pass under way, if it handles a list, logged it; and every claim is of a schedule that its pass logged before. */
  ghost predicate Logged(s: State) {
    && (forall p :: 0 <= p < |s.running| ==> ListLogged(s.running[p], s.history))
    && forall k :: 0 <= k < |s.history| && s.history[k].Claimed? ==> LoadedBefore(s.history, k, s.history[k].pass, s.history[k].at, s.history[k].id)
  }

  ghost predicate ListLogged(pass: Pass, h: seq<Event>) {
    pass.phase.Handling? ==> exists k :: 0 <= k < |h| && h[k] == Loaded(pass.number, pass.at, pass.phase.due)
  }

  ghost predicate LoadedBefore(h: seq<Event>, upTo: nat, pass: nat, at: int, id: string) {
    exists k :: 0 <= k < upTo && k < |h| && h[k].Loaded? && h[k].pass == pass && h[k].at == at && id in h[k].due
  }

  lemma LoggedStays(h: seq<Event>, e: Event)
    ensures forall pass :: ListLogged(pass, h) ==> ListLogged(pass, h + [e])
    ensures forall upTo: nat, pass, at, id :: upTo <= |h| && LoadedBefore(h, upTo, pass, at, id) ==> LoadedBefore(h + [e], upTo, pass, at, id)
  {
    var g := h + [e];
    assert forall k :: 0 <= k < |h| ==> g[k] == h[k];
    forall pass | ListLogged(pass, h)
      ensures ListLogged(pass, g)
    {
      if pass.phase.Handling? {
        var k :| 0 <= k < |h| && h[k] == Loaded(pass.number, pass.at, pass.phase.due);
        assert g[k] == h[k];
      }
    }
    forall upTo: nat, pass, at, id | upTo <= |h| && LoadedBefore(h, upTo, pass, at, id)
      ensures LoadedBefore(g, upTo, pass, at, id)
    {
      var k :| 0 <= k < upTo && h[k].Loaded? && h[k].pass == pass && h[k].at == at && id in h[k].due;
      assert g[k] == h[k];
    }
  }

  /** Appending an event that is no claim. */
  lemma LoggedAppend(s: State, h: seq<Event>, e: Event)
    requires Logged(s) && h == s.history && !e.Claimed?
    ensures forall k :: 0 <= k < |h + [e]| && (h + [e])[k].Claimed? ==> LoadedBefore(h + [e], k, (h + [e])[k].pass, (h + [e])[k].at, (h + [e])[k].id)
    ensures forall p :: 0 <= p < |s.running| ==> ListLogged(s.running[p], h + [e])
  {
    LoggedStays(h, e);
  }

  lemma LoggedClaim(s: State, p: nat)
    requires Logged(s) && CanClaim(s, p)
    ensures Logged(Claim(s, p))
  {
    var t, h, pass := Claim(s, p), s.history, s.running[p];
    var e := t.history[|h|];
    LoggedStays(h, e);
    assert t.history == h + [e];
    assert ListLogged(pass, h);
    var k :| 0 <= k < |h| && h[k] == Loaded(pass.number, pass.at, pass.phase.due);
    assert t.history[k] == h[k];
    assert LoadedBefore(t.history, |h|, e.pass, e.at, e.id);
    forall q | 0 <= q < |t.running| ensures ListLogged(t.running[q], t.history) { assert ListLogged(s.running[q], h + [e]); }
  }

  lemma LoggedLoad(s: State, t: State, p: nat, due: seq<string>)
    requires Logged(s) && Loads(s, t, p, due)
    ensures Logged(t)
  {
    var e := Loaded(s.running[p].number, s.running[p].at, due);
    LoggedAppend(s, s.history, e);
    assert t.history[|s.history|] == e;
    forall q | 0 <= q < |t.running| ensures ListLogged(t.running[q], t.history) { assert ListLogged(s.running[q], s.history + [e]); }
  }

  lemma LoggedOther(s: State, t: State, e: Event)
    requires Logged(s) && !e.Claimed? && t.history == s.history + [e]
    requires forall q :: 0 <= q < |t.running| ==> HasSameList(s, t.running[q])
    ensures Logged(t)
  {
    LoggedAppend(s, s.history, e);
    forall q | 0 <= q < |t.running|
      ensures ListLogged(t.running[q], t.history)
    {
      var p :| 0 <= p < |s.running| && SameList(t.running[q], s.running[p]);
      assert ListLogged(s.running[p], s.history + [e]);
    }
  }

  ghost predicate SameList(a: Pass, b: Pass) {
    a.number == b.number && a.at == b.at && (a.phase.Handling? ==> b.phase.Handling? && a.phase.due == b.phase.due)
  }

  ghost predicate HasSameList(s: State, a: Pass) {
    exists p :: 0 <= p < |s.running| && SameList(a, s.running[p])
  }

  lemma LoggedFinish(s: State, p: nat)
    requires Logged(s) && p < |s.running|
    ensures Logged(Finish(s, p))
  {
    var t := Finish(s, p);
    forall q | 0 <= q < |t.running|
      ensures HasSameList(s, t.running[q])
    {
      assert SameList(t.running[q], s.running[if q < p then q else q + 1]);
    }
    LoggedOther(s, t, PassEnded(s.running[p].number));
  }

  lemma LoggedHandle(s: State, t: State, p: nat, e: Event)
    requires Logged(s) && p < |s.running| && !e.Claimed? && t.history == s.history + [e]
    requires |t.running| == |s.running| && forall q :: 0 <= q < |s.running| ==> SameList(t.running[q], s.running[q])
    ensures Logged(t)
  {
    forall q | 0 <= q < |t.running|
      ensures HasSameList(s, t.running[q])
    {
      assert SameList(t.running[q], s.running[q]);
    }
    LoggedOther(s, t, e);
  }

  lemma LoggedNext(s: State, t: State)
    requires Logged(s) && Next(s, t)
    ensures Logged(t)
  {
    if p: nat :| PassStep(s, t, p) {
      if due :| Loads(s, t, p, due) {
        LoggedLoad(s, t, p, due);
      } else if CanClaim(s, p) && t == Claim(s, p) {
        LoggedClaim(s, p);
      } else if p < |s.running| && t == Finish(s, p) {
        LoggedFinish(s, p);
      } else {
        LoggedHandle(s, t, p, t.history[|s.history|]);
      }
    } else {
      LoggedIdle(s, t);
    }
  }

  /** A tick, a user or the clock append nothing. */
  lemma LoggedIdle(s: State, t: State)
    requires Logged(s) && t.history == s.history
    requires forall q :: 0 <= q < |t.running| ==> t.running[q].phase == Loading || t.running[q] in s.running
    ensures Logged(t)
  {
    forall q | 0 <= q < |t.running|
      ensures ListLogged(t.running[q], t.history)
    {
      if t.running[q].phase != Loading {
        var p :| 0 <= p < |s.running| && s.running[p] == t.running[q];
        assert ListLogged(s.running[p], s.history);
      }
    }
  }

  lemma {:induction false} RunLogged(states: seq<State>, n: nat)
    requires Run(states) && n < |states|
    ensures Logged(states[n])
  {
    if n > 0 {
      RunLogged(states, n - 1);
      assert StepAt(states, n - 1);
      LoggedNext(states[n - 1], states[n]);
    }
  }

  /** A schedule is started only if it was stored, enabled and due when its pass loaded it. */
  lemma StartedWasDue(states: seq<State>, n: nat, j: nat) returns (i: nat, due: seq<string>)
    requires Run(states) && n < |states| && j < |states[n].history| && states[n].history[j].Attempted?
    ensures var e := states[n].history[j];
      && i < n && Appends(states, i, Loaded(e.pass, e.at, due)) && e.id in due
      && e.id in states[i].store && states[i].store[e.id].enabled && states[i].store[e.id].nextRunAt <= e.at
  {
    var h := states[n].history;
    RunKeeps(states, n);
    RunLogged(states, n);
    assert h[j - 1].Claimed? && LoadedBefore(h, j - 1, h[j].pass, h[j].at, h[j].id);
    var k :| 0 <= k < j - 1 && h[k].Loaded? && h[k].pass == h[j].pass && h[k].at == h[j].at && h[j].id in h[k].due;
    i := AppendedBy(states, n, k);
    due := h[k].due;
    LoadsTheDue(states, i, h[k].pass, h[k].at, due);
  }

  // ---- A due schedule can be started -----------------------------------------------------------

  lemma {:induction false} Listing(ids: set<string>) returns (list: seq<string>)
    ensures Distinct(list) && forall id :: id in list <==> id in ids
  {
    if ids == {} {
      list := [];
    } else {
      var id :| id in ids;
      var rest := Listing(ids - {id});
      list := [id] + rest;
    }
  }

  /** The first tick of a run: its pass can load the due schedules with any one of them first. */
  lemma FirstPassLoads(s: State, id: string) returns (loaded: State, due: seq<string>)
    requires Init(s) && id in s.store && s.store[id].enabled && s.store[id].nextRunAt <= s.now
    ensures Next(Tick(s), loaded)
    ensures due != [] && due[0] == id && loaded.store == s.store && loaded.history == [Loaded(0, s.now, due)]
    ensures exists frequencies: map<string, string> :: loaded.running == [Pass(0, s.now, Handling(due, frequencies, 0, false))]
              && id in frequencies && frequencies[id] == s.store[id].frequency
  {
    var rest := Listing((set x | x in s.store && IsDue(s.store, x, s.now)) - {id});
    due := [id] + rest;
    var frequencies := map x | x in due && x in s.store :: s.store[x].frequency;
    var ticked := Tick(s);
    assert ticked.running == [Pass(0, s.now, Loading)];
    assert id in due;
    loaded := ticked.(running := [Pass(0, s.now, Handling(due, frequencies, 0, false))], history := [Loaded(0, s.now, due)]);
    assert Loads(ticked, loaded, 0, due);
    assert PassStep(ticked, loaded, 0);
  }

  lemma RunOf(s: State, a: State, b: State, c: State, d: State) returns (states: seq<State>)
    requires Init(s) && Next(s, a) && Next(a, b) && Next(b, c) && Next(c, d)
    ensures Run(states) && states == [s, a, b, c, d]
  {
    states := [s, a, b, c, d];
    assert StepAt(states, 0) && StepAt(states, 1) && StepAt(states, 2) && StepAt(states, 3);
  }

  /** From any store, a schedule that is due can be claimed and its start attempted, well or badly, by the first pass, at the
      instant of its tick. */
  lemma DueIsStarted(s: State, id: string, ok: bool) returns (states: seq<State>)
    requires Init(s) && id in s.store && s.store[id].enabled && s.store[id].nextRunAt <= s.now
    ensures Run(states) && states[0] == s
    ensures var last := states[|states|-1];
      && Attempted(0, id, s.now, ok) in last.history && id in last.store
      && last.store[id] == s.store[id].(nextRunAt := ComputeNextRunAt(s.store[id].frequency, s.now))
  {
    var loaded, due := FirstPassLoads(s, id);
    var claimed := Claim(loaded, 0);
    var started := Start(claimed, 0, ok);
    assert PassStep(loaded, claimed, 0) && PassStep(claimed, started, 0);
    states := RunOf(s, Tick(s), loaded, claimed, started);
    assert started.history[2] == Attempted(0, id, s.now, ok);
  }

  /** Failures stop nothing else. When the due schedules cannot be read the pass ends; when a claim cannot be written its
      schedule is passed over and left as it was; and a start may fail like it may succeed. */
  lemma FailuresGoOn(s: State, p: nat, ok: bool)
    requires p < |s.running|
    ensures s.running[p].phase == Loading ==>
      exists t :: Next(s, t) && !t.inFlight && t.store == s.store && |t.running| == |s.running| - 1
    ensures CanClaim(s, p) ==>
      exists t :: Next(s, t) && t.store == s.store && |t.running| == |s.running| && t.running[p].phase.Handling?
                  && t.running[p].phase.next == s.running[p].phase.next + 1 && !t.running[p].phase.claimed
                  && t.history == s.history + [ClaimFailed(s.running[p].number, s.running[p].phase.due[s.running[p].phase.next], s.running[p].at)]
    ensures CanStart(s, p) ==>
      exists t :: Next(s, t) && t.store == s.store && |t.running| == |s.running| && t.running[p].phase.Handling?
                  && t.running[p].phase.next == s.running[p].phase.next + 1 && !t.running[p].phase.claimed
                  && t.history == s.history + [Attempted(s.running[p].number, s.running[p].phase.due[s.running[p].phase.next], s.running[p].at, ok)]
  {
    if s.running[p].phase == Loading {
      assert PassStep(s, Finish(s, p), p);
    }
    if CanClaim(s, p) {
      assert PassStep(s, FailClaim(s, p), p);
    }
    if CanStart(s, p) {
      assert PassStep(s, Start(s, p, ok), p);
    }
  }

  // ---- Each claim has its attempt ----------------------------------------------------------------

  ghost function AttemptsAt(h: seq<Event>, pass: nat, id: string): set<nat> {
    set j: nat | j < |h| && h[j].Attempted? && h[j].pass == pass && h[j].id == id
  }

  ghost predicate ClaimedIn(h: seq<Event>, upTo: nat, pass: nat, id: string) {
    exists i :: 0 <= i < upTo && i < |h| && h[i].Claimed? && h[i].pass == pass && h[i].id == id
  }

  lemma AttemptsAreOne(h: seq<Event>, pass: nat, id: string, i: nat, j: nat)
    requires Orderly(h) && i in AttemptsAt(h, pass, id) && j in AttemptsAt(h, pass, id)
    ensures i == j
  {
    assert h[i - 1].Claimed? && h[j - 1].Claimed? && h[i - 1].at == h[j - 1].at;
  }

  /** In a pass that ended, every due schedule was claimed or its claim failed; a claimed one was attempted
      exactly once and any other never, whatever happened to the rest. */
  lemma AttemptedOncePerClaim(states: seq<State>, n: nat, e: nat, pass: nat, id: string)
    requires Run(states) && n < |states|
    requires e < |states[n].history| && states[n].history[e] == PassEnded(pass)
    ensures var h := states[n].history;
      && (forall i :: 0 <= i < e && h[i].Loaded? && h[i].pass == pass && id in h[i].due ==> HandledIn(h, e, pass, id))
      && |AttemptsAt(h, pass, id)| <= 1
      && (ClaimedIn(h, e, pass, id) ==> |AttemptsAt(h, pass, id)| == 1)
      && (!ClaimedIn(h, |h|, pass, id) ==> AttemptsAt(h, pass, id) == {})
  {
    RunKeeps(states, n);
    var h := states[n].history;
    var attempts := AttemptsAt(h, pass, id);
    forall i, j | i in attempts && j in attempts ensures i == j { AttemptsAreOne(h, pass, id, i, j); }
    forall j | j in attempts ensures ClaimedIn(h, |h|, pass, id) { assert h[j - 1].Claimed?; }
    if ClaimedIn(h, e, pass, id) {
      var i :| 0 <= i < e && h[i].Claimed? && h[i].pass == pass && h[i].id == id;
      assert AttemptedBy(h, e);
      assert i + 1 in attempts;
    }
    if j :| j in attempts {
      assert attempts == {j};
    }
  }
}
