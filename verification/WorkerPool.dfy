/** The worker pool of `luqen_raw_batch`: workers share a queue index and push results, interleaving at their awaits. */
module WorkerPool {
  import opened Common

  datatype Outcome = Scanned(report: string) | Failed(error: string)

  /** An element of `results`: the URL it is for and what became of it. */
  datatype Result = Result(url: string, outcome: Outcome)

  datatype Worker = AtLoopHead | Busy(index: nat) | Done

  /** `recorded[k]` is the queue index that produced `results[k]`. */
  datatype State = State(queueIndex: nat, workers: seq<Worker>, results: seq<Result>, recorded: seq<nat>)

  function Min(a: nat, b: nat): nat {
    if a < b then a else b
  }

  predicate Init(urls: seq<string>, concurrency: nat, s: State) {
    && s.queueIndex == 0 && s.results == [] && s.recorded == []
    && |s.workers| == Min(concurrency, |urls|)
    && forall w :: 0 <= w < |s.workers| ==> s.workers[w] == AtLoopHead
  }

  /** One turn at the loop head: claim the next index and start on it, or leave the loop. */
  function Claim(urls: seq<string>, s: State, w: nat): State
    requires w < |s.workers|
  {
    if s.queueIndex < |urls| then s.(queueIndex := s.queueIndex + 1, workers := s.workers[w := Busy(s.queueIndex)])
    else s.(workers := s.workers[w := Done])
  }

  /** The awaited scan of a worker is over, well or badly: its result is pushed. */
  function Complete(urls: seq<string>, s: State, w: nat, outcome: Outcome): State
    requires w < |s.workers| && s.workers[w].Busy? && s.workers[w].index < |urls|
  {
    var i := s.workers[w].index;
    s.(workers := s.workers[w := AtLoopHead], results := s.results + [Result(urls[i], outcome)], recorded := s.recorded + [i])
  }

  ghost predicate Claims(urls: seq<string>, s: State, t: State, w: nat) {
    w < |s.workers| && s.workers[w] == AtLoopHead && t == Claim(urls, s, w)
  }

  ghost predicate Completes(urls: seq<string>, s: State, t: State, w: nat, outcome: Outcome) {
    w < |s.workers| && s.workers[w].Busy? && s.workers[w].index < |urls| && t == Complete(urls, s, w, outcome)
  }

  ghost predicate Next(urls: seq<string>, s: State, t: State) {
    || (exists w: nat :: Claims(urls, s, t, w))
    || (exists w: nat, outcome :: Completes(urls, s, t, w, outcome))
  }

  ghost predicate StepAt(urls: seq<string>, states: seq<State>, i: nat)
    requires i + 1 < |states|
  {
    Next(urls, states[i], states[i + 1])
  }

  ghost predicate Run(urls: seq<string>, concurrency: nat, states: seq<State>) {
    && |states| > 0 && Init(urls, concurrency, states[0])
    && forall i :: 0 <= i < |states| - 1 ==> StepAt(urls, states, i)
  }

  // ---- The invariant -------------------------------------------------------------------------

  ghost predicate InFlight(s: State, i: nat) {
    exists w :: 0 <= w < |s.workers| && s.workers[w] == Busy(i)
  }

  /** The claimed indices are exactly 0..queueIndex-1, each in flight in one worker or recorded once, never both. */
  ghost predicate Accounted(urls: seq<string>, s: State) {
    && s.queueIndex <= |urls|
    && (forall i: nat :: i < s.queueIndex <==> InFlight(s, i) || i in s.recorded)
    && (forall i: nat :: !(InFlight(s, i) && i in s.recorded))
    && (forall v, w :: 0 <= v < |s.workers| && 0 <= w < |s.workers| && s.workers[v].Busy? && s.workers[v] == s.workers[w] ==> v == w)
    && Distinct(s.recorded)
  }

  /** Each result is for the URL of its index. */
  ghost predicate Labelled(urls: seq<string>, s: State) {
    && |s.results| == |s.recorded|
    && forall k :: 0 <= k < |s.results| ==> s.recorded[k] < |urls| && s.results[k].url == urls[s.recorded[k]]
  }

  ghost predicate Inv(urls: seq<string>, concurrency: nat, s: State) {
    && |s.workers| == Min(concurrency, |urls|)
    && Accounted(urls, s) && Labelled(urls, s)
    && (forall w :: 0 <= w < |s.workers| && s.workers[w] == Done ==> s.queueIndex == |urls|)
  }

  lemma ClaimKeeps(urls: seq<string>, concurrency: nat, s: State, w: nat)
    requires Inv(urls, concurrency, s) && w < |s.workers| && s.workers[w] == AtLoopHead
    ensures Inv(urls, concurrency, Claim(urls, s, w))
  {
    var t := Claim(urls, s, w);
    assert forall v :: 0 <= v < |s.workers| && v != w ==> t.workers[v] == s.workers[v];
    forall i: nat
      ensures InFlight(t, i) <==> InFlight(s, i) || (s.queueIndex < |urls| && i == s.queueIndex)
    {
      if InFlight(s, i) {
        var v :| 0 <= v < |s.workers| && s.workers[v] == Busy(i);
        assert t.workers[v] == Busy(i);
      }
      if s.queueIndex < |urls| && i == s.queueIndex {
        assert t.workers[w] == Busy(i);
      }
    }
    assert s.queueIndex < |urls| ==> !InFlight(s, s.queueIndex);
  }

  lemma CompleteKeeps(urls: seq<string>, concurrency: nat, s: State, w: nat, outcome: Outcome)
    requires Inv(urls, concurrency, s) && w < |s.workers| && s.workers[w].Busy? && s.workers[w].index < |urls|
    ensures Inv(urls, concurrency, Complete(urls, s, w, outcome))
  {
    var t, done := Complete(urls, s, w, outcome), s.workers[w].index;
    assert forall v :: 0 <= v < |s.workers| && v != w ==> t.workers[v] == s.workers[v];
    assert InFlight(s, done);
    forall i: nat
      ensures InFlight(t, i) <==> InFlight(s, i) && i != done
      ensures i in t.recorded <==> i in s.recorded || i == done
    {
      if InFlight(s, i) && i != done {
        var v :| 0 <= v < |s.workers| && s.workers[v] == Busy(i);
        assert t.workers[v] == Busy(i);
      }
    }
  }

  lemma {:induction false} RunKeeps(urls: seq<string>, concurrency: nat, states: seq<State>, i: nat)
    requires Run(urls, concurrency, states) && i < |states|
    ensures Inv(urls, concurrency, states[i])
  {
    if i > 0 {
      RunKeeps(urls, concurrency, states, i - 1);
      assert StepAt(urls, states, i - 1);
      NextKeeps(urls, concurrency, states[i - 1], states[i]);
    }
  }

  lemma NextKeeps(urls: seq<string>, concurrency: nat, s: State, t: State)
    requires Inv(urls, concurrency, s) && Next(urls, s, t)
    ensures Inv(urls, concurrency, t)
  {
    if w: nat :| Claims(urls, s, t, w) {
      ClaimKeeps(urls, concurrency, s, w);
    } else {
      var w: nat, outcome :| Completes(urls, s, t, w, outcome);
      CompleteKeeps(urls, concurrency, s, w, outcome);
    }
  }

  // ---- Main results --------------------------------------------------------------------------

  ghost predicate Finished(s: State) {
    forall w :: 0 <= w < |s.workers| ==> s.workers[w] == Done
  }

  ghost function InFlightSet(s: State): set<nat> {
    BusyIndices(s.workers)
  }

  /** Under every interleaving, claimed work is either in flight in one worker or recorded once,
      and at most min(concurrency, n) scans are in flight. */
  lemma NothingLostOrRepeated(urls: seq<string>, concurrency: nat, states: seq<State>, i: nat)
    requires Run(urls, concurrency, states) && i < |states|
    ensures Accounted(urls, states[i]) && Labelled(urls, states[i])
    ensures |InFlightSet(states[i])| <= concurrency && |InFlightSet(states[i])| <= |urls|
    ensures |states[i].workers| == if concurrency < |urls| then concurrency else |urls|
  {
    RunKeeps(urls, concurrency, states, i);
    BusyBounded(states[i].workers);
  }

  ghost function BusyIndices(workers: seq<Worker>): set<nat> {
    set w | 0 <= w < |workers| && workers[w].Busy? :: workers[w].index
  }

  lemma {:induction false} BusyBounded(workers: seq<Worker>)
    ensures |BusyIndices(workers)| <= |workers|
  {
    if workers != [] {
      var front, last := workers[..|workers|-1], workers[|workers|-1];
      BusyBounded(front);
      assert workers == front + [last];
      var more := if last.Busy? then {last.index} else {};
      assert BusyIndices(workers) == BusyIndices(front) + more;
    }
  }

  /** A scan in flight can end in any way, and then its outcome is recorded for its URL. */
  lemma OutcomeIsRecorded(urls: seq<string>, concurrency: nat, states: seq<State>, i: nat, w: nat, outcome: Outcome)
    requires Run(urls, concurrency, states) && i < |states| && w < |states[i].workers| && states[i].workers[w].Busy?
    ensures var s := states[i];
      && s.workers[w].index < |urls|
      && exists t :: Next(urls, s, t) && t.results == s.results + [Result(urls[s.workers[w].index], outcome)] && t.workers[w] == AtLoopHead
  {
    RunKeeps(urls, concurrency, states, i);
    var s := states[i];
    assert InFlight(s, s.workers[w].index);
    assert Completes(urls, s, Complete(urls, s, w, outcome), w, outcome);
    assert Next(urls, s, Complete(urls, s, w, outcome));
  }

  function UrlsOf(results: seq<Result>): seq<string> {
    seq(|results|, k requires 0 <= k < |results| => results[k].url)
  }

  /** `order` lists 0..n-1, each once. */
  ghost predicate Permutes(order: seq<nat>, n: nat) {
    Distinct(order) && forall k: nat :: k < n <==> k in order
  }

  /** When every worker has left its loop, there is exactly one result per queued URL: a permutation of the queue. */
  lemma OneResultPerUrl(urls: seq<string>, concurrency: nat, states: seq<State>, i: nat)
    requires Run(urls, concurrency, states) && i < |states| && Finished(states[i]) && concurrency > 0
    ensures Permutes(states[i].recorded, |urls|) && Labelled(urls, states[i])
    ensures |states[i].results| == |urls| && multiset(UrlsOf(states[i].results)) == multiset(urls)
  {
    RunKeeps(urls, concurrency, states, i);
    AllRecorded(urls, concurrency, states[i]);
    PermutedBy(urls, states[i].recorded, UrlsOf(states[i].results));
  }

  lemma AllRecorded(urls: seq<string>, concurrency: nat, s: State)
    requires Inv(urls, concurrency, s) && Finished(s) && concurrency > 0
    ensures Permutes(s.recorded, |urls|)
  {
    assert |urls| > 0 ==> s.workers[0] == Done;
    forall k: nat
      ensures k < |urls| <==> k in s.recorded
    {
      assert !InFlight(s, k);
    }
  }

  ghost function Drop<T>(s: seq<T>, p: nat): seq<T>
    requires p < |s|
  {
    s[..p] + s[p + 1..]
  }

  lemma DropPermutes(order: seq<nat>, n: nat, p: nat)
    requires Permutes(order, n + 1) && p < |order| && order[p] == n
    ensures Permutes(Drop(order, p), n)
  {
    var rest := Drop(order, p);
    forall k: nat
      ensures k < n <==> k in rest
    {
      if k < n {
        assert k in order;
        var q :| 0 <= q < |order| && order[q] == k;
        assert rest[if q < p then q else q - 1] == k;
      }
      if k in rest {
        var q :| 0 <= q < |rest| && rest[q] == k;
        var q' := if q < p then q else q + 1;
        assert order[q'] == k && order[q'] in order;
      }
    }
  }

  lemma DropMultiset<T>(s: seq<T>, p: nat)
    requires p < |s|
    ensures multiset(s) == multiset(Drop(s, p)) + multiset{s[p]}
  {
    assert s == s[..p] + [s[p]] + s[p + 1..];
  }

  /** Reading a sequence through a permutation of its indices keeps the multiset of its elements. */
  lemma {:induction false} PermutedBy(urls: seq<string>, order: seq<nat>, read: seq<string>)
    requires Permutes(order, |urls|)
    requires |read| == |order| && forall k :: 0 <= k < |order| ==> order[k] < |urls| && read[k] == urls[order[k]]
    ensures |order| == |urls| && multiset(read) == multiset(urls)
  {
    assert order != [] ==> order[0] in order;
    if urls != [] {
      var n := |urls| - 1;
      assert n in order;
      var p: nat :| p < |order| && order[p] == n;
      DropPermutes(order, n, p);
      forall k | 0 <= k < |Drop(order, p)|
        ensures Drop(order, p)[k] < n && Drop(read, p)[k] == urls[..n][Drop(order, p)[k]]
      {
        assert Drop(order, p)[k] in Drop(order, p);
      }
      PermutedBy(urls[..n], Drop(order, p), Drop(read, p));
      DropMultiset(read, p);
      assert urls == urls[..n] + [urls[n]];
    }
  }

  /** Work left: two turns per unclaimed URL, one per scan in flight, one per worker still in the loop. */
  ghost function WorkLeft(urls: seq<string>, s: State): nat
    requires s.queueIndex <= |urls|
  {
    2 * (|urls| - s.queueIndex) + Turns(s.workers)
  }

  ghost function Turns(workers: seq<Worker>): nat {
    if workers == [] then 0 else
    Turns(workers[..|workers|-1]) + match workers[|workers|-1] case AtLoopHead => 1 case Busy(_) => 2 case Done => 0
  }

  lemma {:induction false} TurnsUpdate(workers: seq<Worker>, w: nat, x: Worker)
    requires w < |workers|
    ensures Turns(workers[w := x]) + Turns([workers[w]]) == Turns(workers) + Turns([x])
  {
    var front, last := workers[..|workers|-1], workers[|workers|-1];
    if w == |workers| - 1 {
      assert workers[w := x][..w] == front;
    } else {
      TurnsUpdate(front, w, x);
      assert workers[w := x][..|workers|-1] == front[w := x];
    }
  }

  /** Every step leaves less work and some step is possible until all workers are done: the pool always finishes. */
  lemma AlwaysProgress(urls: seq<string>, concurrency: nat, states: seq<State>, i: nat)
    requires Run(urls, concurrency, states) && i < |states|
    ensures states[i].queueIndex <= |urls|
    ensures i + 1 < |states| ==> states[i + 1].queueIndex <= |urls| && WorkLeft(urls, states[i + 1]) < WorkLeft(urls, states[i])
    ensures !Finished(states[i]) ==> exists t :: Next(urls, states[i], t)
  {
    RunKeeps(urls, concurrency, states, i);
    var s := states[i];
    if i + 1 < |states| {
      RunKeeps(urls, concurrency, states, i + 1);
      assert StepAt(urls, states, i);
      var t := states[i + 1];
      if w: nat :| Claims(urls, s, t, w) {
        TurnsUpdate(s.workers, w, t.workers[w]);
      } else {
        var w: nat, outcome :| Completes(urls, s, t, w, outcome);
        TurnsUpdate(s.workers, w, AtLoopHead);
      }
    }
    if !Finished(s) {
      var w: nat :| w < |s.workers| && s.workers[w] != Done;
      if s.workers[w] == AtLoopHead {
        assert Claims(urls, s, Claim(urls, s, w), w);
        assert Next(urls, s, Claim(urls, s, w));
      } else {
        assert InFlight(s, s.workers[w].index);
        assert Completes(urls, s, Complete(urls, s, w, Failed("")), w, Failed(""));
        assert Next(urls, s, Complete(urls, s, w, Failed("")));
      }
    }
  }
}
