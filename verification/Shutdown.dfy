/** Graceful shutdown with a hard deadline, as a timed transition system.
    Every block between two awaits, every timer callback and every signal is one step; they interleave freely. */
module Shutdown {
  import opened Common

  /** One optional bound per shutdown step, and the overall deadline, in milliseconds. */
  datatype Config = Config(timeouts: seq<Option<int>>, deadlineMs: int)

  const TIMEOUT_MAX: int := 0x7fff_ffff

  /** When a timer fires: Node takes a delay below 1 or beyond 31 bits as 1. */
  function Delay(ms: int): (d: nat)
    ensures d >= 1
    ensures d == ms <==> 1 <= ms <= TIMEOUT_MAX
  {
    if 1 <= ms <= TIMEOUT_MAX then ms else 1
  }

  function Deadline(c: Config): nat {
    Delay(c.deadlineMs)
  }

  datatype Outcome = Settled | Threw | TimedOut

  datatype Event =
    | Started(step: nat, at: nat)
    | Ended(step: nat, outcome: Outcome, at: nat)
    | Exit(code: int, at: nat)

  /** Where the shutdown run is: not begun, at the head of the step loop, awaiting a step, or returned. */
  datatype Phase = NotBegun | AtLoopHead(next: nat) | Awaiting(step: nat, since: nat) | Returned

  /** `inFlight` and `exited` are the captured flags; `timer` is the due time of the armed deadline timer. */
  datatype State = State(now: nat, phase: Phase, inFlight: bool, exited: bool, timer: Option<nat>, startedAt: nat, history: seq<Event>)

  predicate Init(s: State) {
    s.phase == NotBegun && !s.inFlight && !s.exited && s.timer == None && s.history == []
  }

  function Bound(c: Config, step: nat): Option<nat>
    requires step < |c.timeouts|
  {
    match c.timeouts[step]
    case None => None
    case Some(ms) => Some(Delay(if ms < 0 then 0 else ms))
  }

  /** `exitOnce`. */
  function ExitOnce(s: State, code: int): State {
    if s.exited then s else s.(exited := true, history := s.history + [Exit(code, s.now)])
  }

  /** `shutdown(reason)`: the first signal starts the run and arms the deadline, later ones are ignored. */
  function Signal(c: Config, s: State): State {
    if s.inFlight then s
    else s.(inFlight := true, startedAt := s.now, timer := Some(s.now + Deadline(c)), phase := AtLoopHead(0))
  }

  /** The run goes on: the next step starts, or the run ends and exits 0. Both only when nothing has exited. */
  function Resume(c: Config, s: State): State
    requires s.phase.AtLoopHead?
  {
    if s.phase.next < |c.timeouts| then
      if s.exited then s.(phase := Returned)
      else s.(phase := Awaiting(s.phase.next, s.now), history := s.history + [Started(s.phase.next, s.now)])
    else
      var cleared := s.(timer := None, phase := Returned);
      if s.exited then cleared else ExitOnce(cleared, 0)
  }

  /** The awaited step settles, throws or runs into its own timer first; the loop continues in any case. */
  function EndStep(s: State, outcome: Outcome): State
    requires s.phase.Awaiting?
  {
    s.(phase := AtLoopHead(s.phase.step + 1), history := s.history + [Ended(s.phase.step, outcome, s.now)])
  }

  predicate StepTimerDue(c: Config, s: State) {
    s.phase.Awaiting? && s.phase.step < |c.timeouts| && Bound(c, s.phase.step).Some?
    && s.now >= s.phase.since + Bound(c, s.phase.step).value
  }

  /** The deadline timer fires: exit 1, unless the process exits already. */
  function DeadlineFires(s: State): State {
    ExitOnce(s.(timer := None), 1)
  }

  /** Time passes, but not beyond a timer that is due: timers fire when due. */
  predicate MayAdvance(c: Config, s: State, to: nat) {
    && s.now <= to
    && (s.timer.Some? ==> to <= s.timer.value)
    && (s.phase.Awaiting? && s.phase.step < |c.timeouts| && Bound(c, s.phase.step).Some? ==>
          to <= s.phase.since + Bound(c, s.phase.step).value)
  }

  ghost predicate Next(c: Config, s: State, t: State) {
    || t == Signal(c, s)
    || (s.phase.AtLoopHead? && t == Resume(c, s))
    || (s.phase.Awaiting? && (t == EndStep(s, Settled) || t == EndStep(s, Threw)))
    || (StepTimerDue(c, s) && t == EndStep(s, TimedOut))
    || (s.timer.Some? && s.now >= s.timer.value && t == DeadlineFires(s))
    || (exists to: nat :: MayAdvance(c, s, to) && t == s.(now := to))
  }

  ghost predicate StepAt(c: Config, states: seq<State>, i: nat)
    requires i + 1 < |states|
  {
    Next(c, states[i], states[i + 1])
  }

  ghost predicate Run(c: Config, states: seq<State>) {
    && |states| > 0 && Init(states[0])
    && forall i :: 0 <= i < |states| - 1 ==> StepAt(c, states, i)
  }

  // ---- What the log of a run may look like ---------------------------------------------------

  ghost predicate HasEnded(h: seq<Event>, upTo: nat, step: nat) {
    exists i :: 0 <= i < upTo && i < |h| && h[i].Ended? && h[i].step == step
  }

  ghost predicate StartedAt(h: seq<Event>, upTo: nat, step: nat, at: nat) {
    exists i :: 0 <= i < upTo && i < |h| && h[i] == Started(step, at)
  }

  /** The process exits at most once. */
  ghost predicate ExitsOnce(h: seq<Event>) {
    forall i, j :: 0 <= i < |h| && 0 <= j < |h| && h[i].Exit? && h[j].Exit? ==> i == j
  }

  /** No step starts after the exit. */
  ghost predicate NoStartAfterExit(h: seq<Event>) {
    forall i, j :: 0 <= i < j < |h| && h[i].Exit? ==> !h[j].Started?
  }

  /** One pass over the steps, in order, each started after the one before it ended. */
  ghost predicate InOrder(c: Config, h: seq<Event>) {
    && (forall j :: 0 <= j < |h| && h[j].Started? ==> h[j].step < |c.timeouts| && (h[j].step > 0 ==> HasEnded(h, j, h[j].step - 1)))
    && (forall i, j :: 0 <= i < j < |h| && h[i].Started? && h[j].Started? ==> h[i].step < h[j].step)
    && (forall i, j :: 0 <= i < j < |h| && h[i].Ended? && h[j].Ended? ==> h[i].step < h[j].step)
  }

  /** A step that ended was started, ran no longer than its bound, and timed out only at its bound. */
  ghost predicate BoundsKept(c: Config, h: seq<Event>) {
    forall j :: 0 <= j < |h| && h[j].Ended? ==> h[j].step < |c.timeouts| && exists at: nat ::
      && StartedAt(h, j, h[j].step, at)
      && (Bound(c, h[j].step).Some? ==> h[j].at <= at + Bound(c, h[j].step).value)
      && (h[j].outcome == TimedOut ==> Bound(c, h[j].step).Some? && h[j].at == at + Bound(c, h[j].step).value)
  }

  /** The exit comes no later than the deadline; code 0 only after every step ended, any other code is 1. */
  ghost predicate ExitJustified(c: Config, startedAt: nat, h: seq<Event>) {
    forall j :: 0 <= j < |h| && h[j].Exit? ==>
      && h[j].at <= startedAt + Deadline(c)
      && (h[j].code == 0 ==> forall k: nat :: k < |c.timeouts| ==> HasEnded(h, j, k))
      && (h[j].code == 0 || (h[j].code == 1 && h[j].at == startedAt + Deadline(c)))
  }

  ghost predicate Safe(c: Config, s: State) {
    && ExitsOnce(s.history) && NoStartAfterExit(s.history) && InOrder(c, s.history)
    && BoundsKept(c, s.history) && ExitJustified(c, s.startedAt, s.history)
    && (s.inFlight && !s.exited ==> s.now <= s.startedAt + Deadline(c))
  }

  // ---- The inductive invariant ---------------------------------------------------------------

  ghost predicate HasExited(h: seq<Event>) {
    exists i :: 0 <= i < |h| && h[i].Exit?
  }

  ghost predicate Flags(c: Config, s: State) {
    && (s.inFlight <==> s.phase != NotBegun)
    && (!s.inFlight ==> !s.exited && s.timer == None && s.history == [])
    && (s.inFlight && !s.exited ==> s.timer == Some(s.startedAt + Deadline(c)) && s.now <= s.startedAt + Deadline(c))
    && (s.exited ==> s.timer == None)
    && (s.phase == Returned ==> s.exited)
    && (s.exited <==> HasExited(s.history))
  }

  /** Steps below `next` have ended; nothing at or above it has begun. */
  ghost predicate AllBelowEnded(h: seq<Event>, next: nat) {
    && (forall k: nat :: k < next ==> HasEnded(h, |h|, k))
    && (forall i :: 0 <= i < |h| && h[i].Ended? ==> h[i].step < next)
    && (forall i :: 0 <= i < |h| && h[i].Started? ==> h[i].step <= next)
  }

  ghost predicate NoneStarted(h: seq<Event>, next: nat) {
    forall i :: 0 <= i < |h| && h[i].Started? ==> h[i].step < next
  }

  ghost predicate Place(c: Config, s: State) {
    match s.phase
    case NotBegun => true
    case Returned => true
    case AtLoopHead(next) =>
      next <= |c.timeouts| && AllBelowEnded(s.history, next) && NoneStarted(s.history, next)
    case Awaiting(step, since) =>
      step < |c.timeouts| && AllBelowEnded(s.history, step) && StartedAt(s.history, |s.history|, step, since)
      && since <= s.now && (Bound(c, step).Some? ==> s.now <= since + Bound(c, step).value)
  }

  ghost predicate Inv(c: Config, s: State) {
    Flags(c, s) && Place(c, s) && Safe(c, s)
  }

  /** What was in the log before an event is appended still is. */
  lemma StillThere(h: seq<Event>, e: Event)
    ensures forall upTo: nat, k :: upTo <= |h| && HasEnded(h, upTo, k) ==> HasEnded(h + [e], upTo, k)
    ensures forall upTo: nat, k, at :: upTo <= |h| && StartedAt(h, upTo, k, at) ==> StartedAt(h + [e], upTo, k, at)
  {
    forall upTo: nat, k | upTo <= |h| && HasEnded(h, upTo, k)
      ensures HasEnded(h + [e], upTo, k)
    {
      var i :| 0 <= i < upTo && h[i].Ended? && h[i].step == k;
      assert (h + [e])[i] == h[i];
    }
    forall upTo: nat, k, at | upTo <= |h| && StartedAt(h, upTo, k, at)
      ensures StartedAt(h + [e], upTo, k, at)
    {
      var i :| 0 <= i < upTo && h[i] == Started(k, at);
      assert (h + [e])[i] == h[i];
    }
  }

  lemma KeepsBounds(c: Config, h: seq<Event>, e: Event)
    requires BoundsKept(c, h)
    requires e.Ended? ==> e.step < |c.timeouts| && exists at: nat ::
      && StartedAt(h, |h|, e.step, at)
      && (Bound(c, e.step).Some? ==> e.at <= at + Bound(c, e.step).value)
      && (e.outcome == TimedOut ==> Bound(c, e.step).Some? && e.at == at + Bound(c, e.step).value)
    ensures BoundsKept(c, h + [e])
  {
    StillThere(h, e);
  }

  lemma KeepsOrder(c: Config, h: seq<Event>, e: Event)
    requires InOrder(c, h)
    requires e.Started? ==> e.step < |c.timeouts| && (e.step > 0 ==> HasEnded(h, |h|, e.step - 1))
                            && forall i :: 0 <= i < |h| && h[i].Started? ==> h[i].step < e.step
    requires e.Ended? ==> forall i :: 0 <= i < |h| && h[i].Ended? ==> h[i].step < e.step
    ensures InOrder(c, h + [e])
  {
    StillThere(h, e);
  }

  lemma KeepsExits(c: Config, startedAt: nat, h: seq<Event>, e: Event)
    requires ExitsOnce(h) && NoStartAfterExit(h) && ExitJustified(c, startedAt, h)
    requires e.Exit? || e.Started? ==> forall i :: 0 <= i < |h| ==> !h[i].Exit?
    requires e.Exit? ==> e.at <= startedAt + Deadline(c) && (e.code == 0 || (e.code == 1 && e.at == startedAt + Deadline(c)))
                         && (e.code == 0 ==> forall k: nat :: k < |c.timeouts| ==> HasEnded(h, |h|, k))
    ensures ExitsOnce(h + [e]) && NoStartAfterExit(h + [e]) && ExitJustified(c, startedAt, h + [e])
  {
    StillThere(h, e);
  }

  lemma KeepsBelow(h: seq<Event>, e: Event, next: nat)
    requires AllBelowEnded(h, next)
    requires e.Ended? ==> e.step == next && NoneStarted(h, next + 1)
    requires e.Started? ==> e.step == next
    ensures AllBelowEnded(h + [e], if e.Ended? then next + 1 else next)
    ensures NoneStarted(h, next) && !e.Started? ==> NoneStarted(h + [e], next)
    ensures e.Ended? ==> NoneStarted(h + [e], next + 1)
  {
    var grown := h + [e];
    assert grown[|h|] == e;
    assert forall i :: 0 <= i < |h| ==> grown[i] == h[i];
    forall k: nat | k < next
      ensures HasEnded(grown, |grown|, k)
    {
      assert HasEnded(h, |h|, k);
      var i :| 0 <= i < |h| && h[i].Ended? && h[i].step == k;
      assert grown[i] == h[i];
    }
  }

  /** Exiting, at the end of the loop or by the deadline, keeps the invariant. */
  lemma ExitKeeps(c: Config, s: State, t: State, code: int)
    requires Inv(c, s) && s.inFlight && !s.exited
    requires t == s.(timer := None, exited := true, history := s.history + [Exit(code, s.now)])
          || t == s.(timer := None, exited := true, phase := Returned, history := s.history + [Exit(code, s.now)])
    requires code == 0 || (code == 1 && s.now == s.startedAt + Deadline(c))
    requires code == 0 ==> forall k: nat :: k < |c.timeouts| ==> HasEnded(s.history, |s.history|, k)
    ensures Inv(c, t)
  {
    var h, e := s.history, Exit(code, s.now);
    KeepsBounds(c, h, e);
    KeepsOrder(c, h, e);
    KeepsExits(c, s.startedAt, h, e);
    assert HasExited(h + [e]) by { assert (h + [e])[|h|] == e; }
    match s.phase
    case AtLoopHead(next) => KeepsBelow(h, e, next);
    case Awaiting(step, since) => KeepsBelow(h, e, step); StillThere(h, e); assert StartedAt(h + [e], |h|, step, since);
    case _ =>
  }

  lemma StartKeepsLog(c: Config, s: State)
    requires Inv(c, s) && s.phase.AtLoopHead? && s.phase.next < |c.timeouts| && !s.exited
    ensures Safe(c, Resume(c, s))
  {
    var h, e := s.history, Started(s.phase.next, s.now);
    KeepsBounds(c, h, e);
    KeepsOrder(c, h, e);
    KeepsExits(c, s.startedAt, h, e);
  }

  lemma StartKeeps(c: Config, s: State)
    requires Inv(c, s) && s.phase.AtLoopHead? && s.phase.next < |c.timeouts| && !s.exited
    ensures Inv(c, Resume(c, s))
  {
    var h, e := s.history, Started(s.phase.next, s.now);
    StartKeepsLog(c, s);
    KeepsBelow(h, e, s.phase.next);
    SameExits(h, e);
    assert (h + [e])[|h|] == e;
    assert StartedAt(h + [e], |h| + 1, s.phase.next, s.now);
  }

  lemma ResumeKeeps(c: Config, s: State)
    requires Inv(c, s) && s.phase.AtLoopHead?
    ensures Inv(c, Resume(c, s))
  {
    if !s.exited {
      if s.phase.next < |c.timeouts| {
        StartKeeps(c, s);
      } else {
        ExitKeeps(c, s, Resume(c, s), 0);
      }
    }
  }

  lemma SameExits(h: seq<Event>, e: Event)
    requires !e.Exit?
    ensures HasExited(h + [e]) <==> HasExited(h)
  {
    assert forall i :: 0 <= i < |h| ==> (h + [e])[i] == h[i];
  }

  lemma EndKeepsBounds(c: Config, s: State, outcome: Outcome)
    requires Place(c, s) && BoundsKept(c, s.history) && s.phase.Awaiting?
    requires outcome == TimedOut ==> StepTimerDue(c, s)
    ensures BoundsKept(c, s.history + [Ended(s.phase.step, outcome, s.now)])
  {
    assert StartedAt(s.history, |s.history|, s.phase.step, s.phase.since);
    KeepsBounds(c, s.history, Ended(s.phase.step, outcome, s.now));
  }

  lemma EndKeepsLog(c: Config, s: State, outcome: Outcome)
    requires Inv(c, s) && s.phase.Awaiting?
    requires outcome == TimedOut ==> StepTimerDue(c, s)
    ensures Safe(c, EndStep(s, outcome))
  {
    var h, e := s.history, Ended(s.phase.step, outcome, s.now);
    EndKeepsBounds(c, s, outcome);
    KeepsOrder(c, h, e);
    KeepsExits(c, s.startedAt, h, e);
  }

  lemma EndKeepsPlace(c: Config, s: State, outcome: Outcome)
    requires Place(c, s) && s.phase.Awaiting?
    ensures Place(c, EndStep(s, outcome))
  {
    KeepsBelow(s.history, Ended(s.phase.step, outcome, s.now), s.phase.step);
  }

  lemma EndStepKeeps(c: Config, s: State, outcome: Outcome)
    requires Inv(c, s) && s.phase.Awaiting?
    requires outcome == TimedOut ==> StepTimerDue(c, s)
    ensures Inv(c, EndStep(s, outcome))
  {
    EndKeepsLog(c, s, outcome);
    EndKeepsPlace(c, s, outcome);
    SameExits(s.history, Ended(s.phase.step, outcome, s.now));
  }

  lemma NextKeeps(c: Config, s: State, t: State)
    requires Inv(c, s) && Next(c, s, t)
    ensures Inv(c, t)
    ensures s.history <= t.history && s.now <= t.now
    ensures s.inFlight ==> t.inFlight && t.startedAt == s.startedAt
  {
    if s.phase.AtLoopHead? && t == Resume(c, s) {
      ResumeKeeps(c, s);
    } else if s.phase.Awaiting? && (t == EndStep(s, Settled) || t == EndStep(s, Threw)) {
      EndStepKeeps(c, s, Settled);
      EndStepKeeps(c, s, Threw);
    } else if StepTimerDue(c, s) && t == EndStep(s, TimedOut) {
      EndStepKeeps(c, s, TimedOut);
    } else if s.timer.Some? && s.now >= s.timer.value && t == DeadlineFires(s) {
      if !s.exited { ExitKeeps(c, s, t, 1); }
    }
  }

  lemma {:induction false} RunKeeps(c: Config, states: seq<State>, i: nat)
    requires Run(c, states) && i < |states|
    ensures Inv(c, states[i])
  {
    if i == 0 {
      InitHolds(c, states[0]);
    } else {
      RunKeeps(c, states, i - 1);
      StepKeeps(c, states, i - 1);
    }
  }

  lemma InitHolds(c: Config, s: State)
    requires Init(s)
    ensures Inv(c, s)
  {
  }

  lemma StepKeeps(c: Config, states: seq<State>, i: nat)
    requires Run(c, states) && i + 1 < |states| && Inv(c, states[i])
    ensures Inv(c, states[i + 1])
  {
    assert StepAt(c, states, i);
    NextKeeps(c, states[i], states[i + 1]);
  }

  /** Every interleaving of signals, step outcomes and timers is safe, at every moment. */
  lemma EveryRunIsSafe(c: Config, states: seq<State>, i: nat)
    requires Run(c, states) && i < |states|
    ensures Safe(c, states[i])
  {
    RunKeeps(c, states, i);
  }

  /** The log only grows, and a run in flight stays the same run. */
  ghost predicate Continues(s: State, t: State) {
    s.history <= t.history && (s.inFlight ==> t.inFlight && t.startedAt == s.startedAt)
  }

  lemma ContinuesOn(a: State, b: State, d: State)
    requires Continues(a, b) && Continues(b, d)
    ensures Continues(a, d)
  {
  }

  lemma StepContinues(c: Config, states: seq<State>, i: nat)
    requires Run(c, states) && i + 1 < |states|
    ensures Continues(states[i], states[i + 1])
  {
    RunKeeps(c, states, i);
    assert StepAt(c, states, i);
    NextKeeps(c, states[i], states[i + 1]);
  }

  /** Once a shutdown is in flight, later signals start no second one: its start time stays and its log only grows. */
  lemma {:induction false} OneShutdownPerRun(c: Config, states: seq<State>, i: nat, j: nat)
    requires Run(c, states) && i <= j < |states| && states[i].inFlight
    ensures Continues(states[i], states[j])
    ensures states[j].inFlight && Signal(c, states[j]) == states[j]
  {
    if i < j {
      OneShutdownPerRun(c, states, i, j - 1);
      StepContinues(c, states, j - 1);
      ContinuesOn(states[i], states[j - 1], states[j]);
    }
  }

  /** Past the deadline the process has exited, whatever the steps do. */
  lemma ExitedPastDeadline(c: Config, states: seq<State>, i: nat)
    requires Run(c, states) && i < |states|
    requires states[i].inFlight && states[i].now > states[i].startedAt + Deadline(c)
    ensures exists e :: e in states[i].history && e.Exit? && e.at <= states[i].startedAt + Deadline(c)
  {
    RunKeeps(c, states, i);
    var k :| 0 <= k < |states[i].history| && states[i].history[k].Exit?;
  }

  /** A deadline that no timer can have forces the process out after a millisecond. */
  lemma FiresAtOnce(c: Config) returns (states: seq<State>)
    requires !(1 <= c.deadlineMs <= TIMEOUT_MAX)
    ensures Run(c, states) && |states| == 4 && states[3].startedAt == 0 && Exit(1, 1) in states[3].history
  {
    var s0 := State(0, NotBegun, false, false, None, 0, []);
    var s1 := Signal(c, s0);
    var s2 := s1.(now := 1);
    var s3 := DeadlineFires(s2);
    assert MayAdvance(c, s1, 1);
    states := [s0, s1, s2, s3];
    assert Next(c, s0, s1) && Next(c, s1, s2) && Next(c, s2, s3);
    assert StepAt(c, states, 0) && StepAt(c, states, 1) && StepAt(c, states, 2);
    assert s3.history == [Exit(1, 1)] && s3.history[0] in s3.history;
  }

  lemma ExitAt(c: Config, states: seq<State>, i: nat, e: Event)
    requires Run(c, states) && i < |states| && e in states[i].history && e.Exit?
    ensures e.at <= states[i].startedAt + Deadline(c) && (e.code == 1 ==> e.at == states[i].startedAt + Deadline(c))
  {
    RunKeeps(c, states, i);
    var k :| 0 <= k < |states[i].history| && states[i].history[k] == e;
  }

  ghost predicate ExitIn(c: Config, states: seq<State>, i: nat, e: Event) {
    Run(c, states) && i < |states| && e in states[i].history && e.Exit?
  }

  /** In every run a forced exit comes exactly at the configured deadline if and only if a timer can have that delay. */
  lemma ForcedOnTimeIff(c: Config)
    ensures (forall states: seq<State>, i: nat, e :: ExitIn(c, states, i, e) && e.code == 1 ==> e.at == states[i].startedAt + c.deadlineMs)
       <==> 1 <= c.deadlineMs <= 2_147_483_647
  {
    if 1 <= c.deadlineMs <= TIMEOUT_MAX {
      forall states: seq<State>, i: nat, e | ExitIn(c, states, i, e) && e.code == 1
        ensures e.at == states[i].startedAt + c.deadlineMs
      {
        ExitAt(c, states, i, e);
      }
    } else {
      var states := FiresAtOnce(c);
      assert ExitIn(c, states, 3, Exit(1, 1));
    }
  }

  /** In every run every exit comes no later than the configured deadline if and only if that is at least 1. */
  lemma DeadlineIsKeptIff(c: Config)
    ensures (forall states: seq<State>, i: nat, e :: ExitIn(c, states, i, e) ==> e.at <= states[i].startedAt + c.deadlineMs)
       <==> c.deadlineMs >= 1
  {
    if c.deadlineMs >= 1 {
      forall states: seq<State>, i: nat, e | ExitIn(c, states, i, e)
        ensures e.at <= states[i].startedAt + c.deadlineMs
      {
        ExitAt(c, states, i, e);
      }
    } else {
      var states := FiresAtOnce(c);
      assert ExitIn(c, states, 3, Exit(1, 1));
    }
  }

  // ---- The timeout of a step -------------------------------------------------------------------

  lemma RunExtends(c: Config, states: seq<State>, t: State)
    requires Run(c, states) && Next(c, states[|states|-1], t)
    ensures Run(c, states + [t])
  {
    var more := states + [t];
    forall i | 0 <= i < |more| - 1
      ensures StepAt(c, more, i)
    {
      if i < |states| - 1 { assert StepAt(c, states, i); }
    }
  }

  /** A run that reaches any step at instant 0: every step before it settles at once. */
  lemma ReachesStep(c: Config, step: nat) returns (states: seq<State>)
    requires step <= |c.timeouts|
    ensures Run(c, states)
    ensures var s := states[|states|-1];
      s.now == 0 && s.phase == AtLoopHead(step) && s.inFlight && !s.exited && s.startedAt == 0 && s.timer == Some(Deadline(c))
  {
    if step == 0 {
      var s0 := State(0, NotBegun, false, false, None, 0, []);
      states := [s0];
      RunExtends(c, states, Signal(c, s0));
      states := states + [Signal(c, s0)];
    } else {
      states := ReachesStep(c, step - 1);
      var begun := Resume(c, states[|states|-1]);
      RunExtends(c, states, begun);
      states := states + [begun];
      RunExtends(c, states, EndStep(begun, Settled));
      states := states + [EndStep(begun, Settled)];
    }
  }

  /** Both events are in the log of one state of a run. */
  ghost predicate TimedOutIn(c: Config, states: seq<State>, i: nat, step: nat, since: nat, at: nat) {
    && Run(c, states) && i < |states|
    && Started(step, since) in states[i].history && Ended(step, TimedOut, at) in states[i].history
  }

  /** A delay that no timer can have makes the step time out after a millisecond. */
  lemma StepFiresAtOnce(c: Config, step: nat, ms: int) returns (states: seq<State>)
    requires step < |c.timeouts| && c.timeouts[step] == Some(ms) && !(1 <= ms <= TIMEOUT_MAX)
    ensures |states| > 0 && TimedOutIn(c, states, |states| - 1, step, 0, 1)
  {
    states := ReachesStep(c, step);
    var begun := Resume(c, states[|states|-1]);
    RunExtends(c, states, begun);
    states := states + [begun];
    var later := begun.(now := 1);
    assert MayAdvance(c, begun, 1);
    RunExtends(c, states, later);
    states := states + [later];
    var ended := EndStep(later, TimedOut);
    RunExtends(c, states, ended);
    states := states + [ended];
    var n := |ended.history|;
    assert ended.history[n - 2] == Started(step, 0) && ended.history[n - 1] == Ended(step, TimedOut, 1);
  }

  /** A step is started once, so its timeout is counted from there. */
  lemma TimedOutAt(c: Config, states: seq<State>, i: nat, step: nat, since: nat, at: nat)
    requires TimedOutIn(c, states, i, step, since, at)
    ensures step < |c.timeouts| && c.timeouts[step].Some? && at == since + Bound(c, step).value
  {
    RunKeeps(c, states, i);
    var h := states[i].history;
    var j :| 0 <= j < |h| && h[j] == Ended(step, TimedOut, at);
    var begun: nat :| StartedAt(h, j, step, begun) && Bound(c, step).Some? && at == begun + Bound(c, step).value;
    var k :| 0 <= k < j && h[k] == Started(step, begun);
    var l :| 0 <= l < |h| && h[l] == Started(step, since);
    assert k == l;
  }

  /** In every run a step with a timeout times out exactly that long after its start if and only if a timer can have it. */
  lemma StepTimesOutOnTimeIff(c: Config, step: nat, ms: int)
    requires step < |c.timeouts| && c.timeouts[step] == Some(ms)
    ensures (forall states: seq<State>, i: nat, since: nat, at: nat :: TimedOutIn(c, states, i, step, since, at) ==> at == since + ms)
       <==> 1 <= ms <= 2_147_483_647
  {
    if 1 <= ms <= TIMEOUT_MAX {
      forall states: seq<State>, i: nat, since: nat, at: nat | TimedOutIn(c, states, i, step, since, at)
        ensures at == since + ms
      {
        TimedOutAt(c, states, i, step, since, at);
      }
    } else {
      var states := StepFiresAtOnce(c, step, ms);
    }
  }

  /** A step without a timeout never times out. */
  lemma UnboundedNeverTimesOut(c: Config, states: seq<State>, i: nat, step: nat, at: nat)
    requires Run(c, states) && i < |states| && step < |c.timeouts| && c.timeouts[step] == None
    ensures Ended(step, TimedOut, at) !in states[i].history
  {
    RunKeeps(c, states, i);
    assert BoundsKept(c, states[i].history) && Bound(c, step) == None;
  }

  ghost predicate CanTimeOut(c: Config, s: State, step: nat) {
    exists t :: Next(c, s, t) && t.history == s.history + [Ended(step, TimedOut, s.now)]
  }

  /** The step can end now in this way, and the run then goes on after it. */
  ghost predicate CanEnd(c: Config, s: State, step: nat, outcome: Outcome) {
    exists t :: Next(c, s, t) && t.history == s.history + [Ended(step, outcome, s.now)] && t.phase == AtLoopHead(step + 1)
  }

  ghost predicate CanWaitUntil(c: Config, s: State, to: nat) {
    Next(c, s, s.(now := to))
  }

  /** While a step is awaited it can settle or throw, and the run goes on. With a timeout, time cannot pass its due instant, and the step can time out then and only then;
      without one it cannot time out. Up to there, and up to the overall deadline until the exit, time may pass freely. */
  lemma WhileAwaited(c: Config, states: seq<State>, i: nat, to: nat)
    requires Run(c, states) && i < |states| && states[i].phase.Awaiting?
    ensures var s := states[i];
      && s.phase.step < |c.timeouts| && CanEnd(c, s, s.phase.step, Settled) && CanEnd(c, s, s.phase.step, Threw)
      && match c.timeouts[s.phase.step]
         case Some(ms) =>
           && s.now <= s.phase.since + Delay(ms)
           && (CanTimeOut(c, s, s.phase.step) <==> s.now == s.phase.since + Delay(ms))
           && (to > s.now ==> (CanWaitUntil(c, s, to) <==>
                                to <= s.phase.since + Delay(ms) && (!s.exited ==> to <= s.startedAt + Delay(c.deadlineMs))))
         case None =>
           && !CanTimeOut(c, s, s.phase.step)
           && (to > s.now ==> (CanWaitUntil(c, s, to) <==> (!s.exited ==> to <= s.startedAt + Delay(c.deadlineMs))))
  {
    RunKeeps(c, states, i);
    var s := states[i];
    assert Next(c, s, EndStep(s, Settled)) && Next(c, s, EndStep(s, Threw));
    TimeOutStep(c, s);
    if to > s.now { WaitStep(c, s, to); }
  }

  lemma TimeOutStep(c: Config, s: State)
    requires Inv(c, s) && s.phase.Awaiting?
    ensures CanTimeOut(c, s, s.phase.step) <==> StepTimerDue(c, s)
  {
    if StepTimerDue(c, s) {
      assert Next(c, s, EndStep(s, TimedOut));
    }
    if t :| Next(c, s, t) && t.history == s.history + [Ended(s.phase.step, TimedOut, s.now)] {
      assert t.history[|s.history|] == Ended(s.phase.step, TimedOut, s.now);
    }
  }

  lemma WaitStep(c: Config, s: State, to: nat)
    requires Inv(c, s) && to > s.now
    ensures CanWaitUntil(c, s, to) <==> MayAdvance(c, s, to)
  {
    assert s.(now := to).now == to;
  }

  /** A run in flight is never stuck before its exit: some step of its own, or time, can move it. */
  lemma NeverStuck(c: Config, states: seq<State>, i: nat)
    requires Run(c, states) && i < |states| && states[i].inFlight && !states[i].exited
    ensures exists t :: Next(c, states[i], t) && (t.exited || t.phase != states[i].phase || t.now > states[i].now)
  {
    RunKeeps(c, states, i);
    var s := states[i];
    if s.phase.AtLoopHead? {
      assert Next(c, s, Resume(c, s)) && Resume(c, s).phase != s.phase;
    } else if s.now >= s.timer.value {
      assert Next(c, s, DeadlineFires(s)) && DeadlineFires(s).exited;
    } else if StepTimerDue(c, s) {
      assert Next(c, s, EndStep(s, TimedOut)) && EndStep(s, TimedOut).phase != s.phase;
    } else {
      assert MayAdvance(c, s, s.now + 1);
      assert Next(c, s, s.(now := s.now + 1));
    }
  }
}
