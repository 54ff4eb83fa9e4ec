/** The scan engines: five optional passes over the scanned pages that only ever add findings. */
module EnginePasses {
  import opened Common

  datatype Level = Error | Warning | Notice

  datatype Issue = Issue(code: string, level: Level, message: string, selector: string, context: string, runner: Option<string>, fixSuggestion: Option<string>)

  datatype Page = Page(url: string, discoveryMethod: string, issueCount: nat, issues: seq<Issue>)

  datatype Engine = Behavioral | Lighthouse | Ibm | Reflow | A11yTree

  /** What an engine reports for a page. */
  datatype Finding = Finding(code: string, level: Level, message: string, selector: string, context: string, runner: Option<string>)

  /** The switch and the page cap of each engine. */
  datatype Options = Options(enabled: set<Engine>, maxPages: map<Engine, int>)

  /** The answer of an engine for the page with this URL at this position; `None` stands for an exception. */
  type Checks = (Engine, string, nat) -> Option<seq<Finding>>

  function Name(e: Engine): string {
    match e
    case Behavioral => "behavioral"
    case Lighthouse => "lighthouse"
    case Ibm => "ibm"
    case Reflow => "reflow"
    case A11yTree => "a11y-tree"
  }

  function Cap(opts: Options, e: Engine): int {
    if e in opts.maxPages then opts.maxPages[e] else if e == Behavioral then 10 else 5
  }

  function Mapped(e: Engine, findings: seq<Finding>): seq<Issue> {
    seq(|findings|, i requires 0 <= i < |findings| =>
      Issue(findings[i].code, findings[i].level, findings[i].message, findings[i].selector, findings[i].context,
            if findings[i].runner.Some? then findings[i].runner else Some(Name(e)),
            Some("Refer to WCAG documentation for " + findings[i].code)))
  }

  /** What a pass adds to the page at position i: nothing when it is off, beyond the cap, fails or finds nothing. */
  function Added(opts: Options, checks: Checks, e: Engine, url: string, i: nat): seq<Issue> {
    if e !in opts.enabled || i >= Cap(opts, e) || checks(e, url, i).None? then [] else Mapped(e, checks(e, url, i).value)
  }

  function Merge(page: Page, more: seq<Issue>): Page {
    if more == [] then page else page.(issues := page.issues + more, issueCount := |page.issues + more|)
  }

  function Passed(opts: Options, checks: Checks, e: Engine, pages: seq<Page>): seq<Page> {
    seq(|pages|, i requires 0 <= i < |pages| => Merge(pages[i], Added(opts, checks, e, pages[i].url, i)))
  }

  /** One `run*Pass`; the five differ in engine, default cap and runner name only. */
  method RunPass(opts: Options, checks: Checks, e: Engine, pages: seq<Page>) returns (out: seq<Page>)
    requires e in opts.enabled
    ensures out == Passed(opts, checks, e, pages)
  {
    var cap := Cap(opts, e);
    out := [];
    for i := 0 to |pages|
      invariant |out| == i
      invariant forall k :: 0 <= k < i ==> out[k] == Merge(pages[k], Added(opts, checks, e, pages[k].url, k))
    {
      var page := pages[i];
      if i >= cap {
        out := out + [page];
        continue;
      }
      var answer := checks(e, page.url, i);
      if answer.None? || |answer.value| == 0 {
        out := out + [page];
        continue;
      }
      var merged := page.issues + Mapped(e, answer.value);
      out := out + [page.(issues := merged, issueCount := |merged|)];
    }
  }

  /** The passes in the order they run. */
  const ORDER: seq<Engine> := [Behavioral, Lighthouse, Ibm, Reflow, A11yTree]

  /** Everything the engines of a list add to a page, in order. */
  function AllAdded(opts: Options, checks: Checks, engines: seq<Engine>, url: string, i: nat): seq<Issue> {
    if engines == [] then [] else
    AllAdded(opts, checks, engines[..|engines|-1], url, i) + Added(opts, checks, engines[|engines|-1], url, i)
  }

  /** Pages after the passes of a list: the original page with everything added at the end. */
  ghost predicate Extended(opts: Options, checks: Checks, engines: seq<Engine>, before: seq<Page>, after: seq<Page>) {
    && |after| == |before|
    && forall i :: 0 <= i < |before| ==> ExtendedPage(before[i], after[i], AllAdded(opts, checks, engines, before[i].url, i))
  }

  ghost predicate ExtendedPage(before: Page, after: Page, more: seq<Issue>) {
    && after.url == before.url && after.discoveryMethod == before.discoveryMethod
    && after.issues == before.issues + more
    && (after.issueCount == |after.issues| <==> before.issueCount == |before.issues| || more != [])
  }

  lemma ExtendOne(opts: Options, checks: Checks, engines: seq<Engine>, e: Engine, before: seq<Page>, after: seq<Page>)
    requires Extended(opts, checks, engines, before, after)
    ensures Extended(opts, checks, engines + [e], before, Passed(opts, checks, e, after))
  {
    assert (engines + [e])[..|engines|] == engines;
    forall i | 0 <= i < |before|
      ensures ExtendedPage(before[i], Passed(opts, checks, e, after)[i], AllAdded(opts, checks, engines + [e], before[i].url, i))
    {
      var more := AllAdded(opts, checks, engines, before[i].url, i);
      ConcatAssoc(before[i].issues, more, Added(opts, checks, e, before[i].url, i));
    }
  }

  lemma PassOff(opts: Options, checks: Checks, e: Engine, pages: seq<Page>)
    requires e !in opts.enabled
    ensures Passed(opts, checks, e, pages) == pages
  {
  }

  /** A pass runs when its engine is switched on; `done` are the engines before it. */
  method MaybeRunPass(opts: Options, checks: Checks, e: Engine, pages: seq<Page>, ghost done: seq<Engine>, ghost scanned: seq<Page>)
      returns (out: seq<Page>)
    requires Extended(opts, checks, done, scanned, pages)
    ensures out == Passed(opts, checks, e, pages)
    ensures Extended(opts, checks, done + [e], scanned, out)
  {
    ExtendOne(opts, checks, done, e, scanned, pages);
    if e in opts.enabled {
      out := RunPass(opts, checks, e, pages);
    } else {
      PassOff(opts, checks, e, pages);
      out := pages;
    }
  }

  datatype Counts = Counts(error: nat, warning: nat, notice: nat)

  function Plus(a: Counts, b: Counts): Counts {
    Counts(a.error + b.error, a.warning + b.warning, a.notice + b.notice)
  }

  function CountOne(issue: Issue): Counts {
    match issue.level
    case Error => Counts(1, 0, 0)
    case Warning => Counts(0, 1, 0)
    case Notice => Counts(0, 0, 1)
  }

  function CountIssues(issues: seq<Issue>): Counts {
    if issues == [] then Counts(0, 0, 0) else Plus(CountIssues(issues[..|issues|-1]), CountOne(issues[|issues|-1]))
  }

  function AllIssues(pages: seq<Page>): seq<Issue> {
    if pages == [] then [] else AllIssues(pages[..|pages|-1]) + pages[|pages|-1].issues
  }

  lemma PlusAssoc(a: Counts, b: Counts, c: Counts)
    ensures Plus(Plus(a, b), c) == Plus(a, Plus(b, c))
  {
  }

  lemma CountSnoc(issues: seq<Issue>, issue: Issue)
    ensures CountIssues(issues + [issue]) == Plus(CountIssues(issues), CountOne(issue))
  {
    assert (issues + [issue])[..|issues|] == issues;
  }

  lemma PlusSnoc(before: Counts, front: seq<Issue>, issue: Issue)
    ensures Plus(before, CountIssues(front + [issue])) == Plus(Plus(before, CountIssues(front)), CountOne(issue))
  {
    CountSnoc(front, issue);
    PlusAssoc(before, CountIssues(front), CountOne(issue));
  }

  lemma {:induction false} CountsAdd(a: seq<Issue>, b: seq<Issue>)
    ensures CountIssues(a + b) == Plus(CountIssues(a), CountIssues(b))
  {
    if b == [] {
      assert a + b == a;
    } else {
      var front, last := b[..|b|-1], b[|b|-1];
      assert front + [last] == b && (a + front) + [last] == a + b;
      CountsAdd(a, front);
      CountSnoc(a + front, last);
      PlusSnoc(CountIssues(a), front, last);
    }
  }

  /** The three level counts split the issues. */
  lemma {:induction false} CountsSplit(issues: seq<Issue>)
    ensures var c := CountIssues(issues); c.error + c.warning + c.notice == |issues|
  {
    if issues != [] {
      CountsSplit(issues[..|issues|-1]);
    }
  }

  lemma PlusNext(before: Counts, issues: seq<Issue>, k: nat)
    requires k < |issues|
    ensures Plus(before, CountIssues(issues[..k + 1])) == Plus(Plus(before, CountIssues(issues[..k])), CountOne(issues[k]))
  {
    assert issues[..k] + [issues[k]] == issues[..k + 1];
    PlusSnoc(before, issues[..k], issues[k]);
  }

  method CountLevel(before: Counts, issue: Issue) returns (counts: Counts)
    ensures counts == Plus(before, CountOne(issue))
  {
    counts := before;
    match issue.level
    case Error => counts := counts.(error := counts.error + 1);
    case Warning => counts := counts.(warning := counts.warning + 1);
    case Notice => counts := counts.(notice := counts.notice + 1);
  }

  /** The inner loop of the aggregation: the issues of one page. */
  method CountPage(before: Counts, issues: seq<Issue>) returns (counts: Counts)
    ensures counts == Plus(before, CountIssues(issues))
  {
    counts := before;
    for k := 0 to |issues|
      invariant counts == Plus(before, CountIssues(issues[..k]))
    {
      PlusNext(before, issues, k);
      counts := CountLevel(counts, issues[k]);
    }
    assert issues[..|issues|] == issues;
  }

  /** The aggregation loop nest. */
  method CountLevels(pages: seq<Page>) returns (counts: Counts)
    ensures counts == CountIssues(AllIssues(pages))
    ensures counts.error + counts.warning + counts.notice == |AllIssues(pages)|
  {
    counts := Counts(0, 0, 0);
    for i := 0 to |pages|
      invariant counts == CountIssues(AllIssues(pages[..i]))
    {
      assert pages[..i + 1][..i] == pages[..i];
      CountsAdd(AllIssues(pages[..i]), pages[i].issues);
      counts := CountPage(counts, pages[i].issues);
    }
    assert pages[..|pages|] == pages;
    CountsSplit(AllIssues(pages));
  }

  /** `runEngines` after the static scan: whatever the switches, caps, failures and findings, each page keeps its place,
      URL and static issues, followed by the findings of the engines in pass order. */
  method RunEngines(opts: Options, checks: Checks, scanned: seq<Page>) returns (pages: seq<Page>, byLevel: Counts)
    ensures Extended(opts, checks, ORDER, scanned, pages)
    ensures byLevel == CountIssues(AllIssues(pages))
    ensures byLevel.error + byLevel.warning + byLevel.notice == |AllIssues(pages)|
  {
    assert Extended(opts, checks, [], scanned, scanned);
    var behavioralPages := MaybeRunPass(opts, checks, Behavioral, scanned, [], scanned);
    var lighthousePages := MaybeRunPass(opts, checks, Lighthouse, behavioralPages, [] + [Behavioral], scanned);
    var ibmPages := MaybeRunPass(opts, checks, Ibm, lighthousePages, [] + [Behavioral] + [Lighthouse], scanned);
    var reflowPages := MaybeRunPass(opts, checks, Reflow, ibmPages, [] + [Behavioral] + [Lighthouse] + [Ibm], scanned);
    pages := MaybeRunPass(opts, checks, A11yTree, reflowPages, [] + [Behavioral] + [Lighthouse] + [Ibm] + [Reflow], scanned);
    assert ORDER == [] + [Behavioral] + [Lighthouse] + [Ibm] + [Reflow] + [A11yTree];
    byLevel := CountLevels(pages);
  }

  // ---- What the engines add ----------------------------------------------------------------------

  /** The issues an engine adds to the page at position `i`: none when it is off, from its cap on, or when it fails; otherwise
      one per finding, with the engine as runner unless the finding names one, and a hint at the documentation. */
  function Reported(on: bool, cap: int, answer: Option<seq<Finding>>, i: nat, runner: string): seq<Issue> {
    if !on || i >= cap || answer == None then [] else
    seq(|answer.value|, k requires 0 <= k < |answer.value| =>
      var f := answer.value[k];
      Issue(f.code, f.level, f.message, f.selector, f.context, if f.runner == None then Some(runner) else f.runner,
            Some("Refer to WCAG documentation for " + f.code)))
  }

  function CapOr(opts: Options, e: Engine, otherwise: int): int {
    if e in opts.maxPages then opts.maxPages[e] else otherwise
  }

  /** What is added to a page: first the behavioral findings, on 10 pages unless capped otherwise, then those of Lighthouse, IBM,
      reflow and the accessibility tree, on 5 pages each. */
  lemma AddedInOrder(opts: Options, checks: Checks, url: string, i: nat)
    ensures AllAdded(opts, checks, ORDER, url, i)
         == Reported(Behavioral in opts.enabled, CapOr(opts, Behavioral, 10), checks(Behavioral, url, i), i, "behavioral")
            + Reported(Lighthouse in opts.enabled, CapOr(opts, Lighthouse, 5), checks(Lighthouse, url, i), i, "lighthouse")
            + Reported(Ibm in opts.enabled, CapOr(opts, Ibm, 5), checks(Ibm, url, i), i, "ibm")
            + Reported(Reflow in opts.enabled, CapOr(opts, Reflow, 5), checks(Reflow, url, i), i, "reflow")
            + Reported(A11yTree in opts.enabled, CapOr(opts, A11yTree, 5), checks(A11yTree, url, i), i, "a11y-tree")
  {
    AddedIs(opts, checks, Behavioral, url, i, 10, "behavioral");
    AddedIs(opts, checks, Lighthouse, url, i, 5, "lighthouse");
    AddedIs(opts, checks, Ibm, url, i, 5, "ibm");
    AddedIs(opts, checks, Reflow, url, i, 5, "reflow");
    AddedIs(opts, checks, A11yTree, url, i, 5, "a11y-tree");
    assert [] + [Behavioral] == [Behavioral] && [Behavioral] + [Lighthouse] == [Behavioral, Lighthouse];
    assert [Behavioral, Lighthouse] + [Ibm] == [Behavioral, Lighthouse, Ibm];
    assert [Behavioral, Lighthouse, Ibm] + [Reflow] == [Behavioral, Lighthouse, Ibm, Reflow];
    assert [Behavioral, Lighthouse, Ibm, Reflow] + [A11yTree] == ORDER;
    AllAddedSnoc(opts, checks, [], Behavioral, url, i);
    AllAddedSnoc(opts, checks, [Behavioral], Lighthouse, url, i);
    AllAddedSnoc(opts, checks, [Behavioral, Lighthouse], Ibm, url, i);
    AllAddedSnoc(opts, checks, [Behavioral, Lighthouse, Ibm], Reflow, url, i);
    AllAddedSnoc(opts, checks, [Behavioral, Lighthouse, Ibm, Reflow], A11yTree, url, i);
    assert [] + Added(opts, checks, Behavioral, url, i) == Added(opts, checks, Behavioral, url, i);
  }

  lemma AllAddedSnoc(opts: Options, checks: Checks, engines: seq<Engine>, e: Engine, url: string, i: nat)
    ensures AllAdded(opts, checks, engines + [e], url, i) == AllAdded(opts, checks, engines, url, i) + Added(opts, checks, e, url, i)
  {
    assert (engines + [e])[..|engines|] == engines;
  }

  lemma AddedIs(opts: Options, checks: Checks, e: Engine, url: string, i: nat, otherwise: int, runner: string)
    requires otherwise == (if e == Behavioral then 10 else 5) && runner == Name(e)
    ensures Added(opts, checks, e, url, i) == Reported(e in opts.enabled, CapOr(opts, e, otherwise), checks(e, url, i), i, runner)
  {
  }

  ghost function AtLevel(issues: seq<Issue>, level: Level): set<nat> {
    set k: nat | k < |issues| && issues[k].level == level
  }

  lemma AtLevelSnoc(issues: seq<Issue>, issue: Issue, level: Level)
    ensures |AtLevel(issues + [issue], level)| == |AtLevel(issues, level)| + if issue.level == level then 1 else 0
  {
    var before, after := AtLevel(issues, level), AtLevel(issues + [issue], level);
    assert forall k :: 0 <= k < |issues| ==> (issues + [issue])[k] == issues[k];
    assert after == before + if issue.level == level then {|issues|} else {};
  }

  /** Each level count is the number of issues of that level. */
  lemma {:induction false} CountsAreLevels(issues: seq<Issue>)
    ensures var c := CountIssues(issues);
      c.error == |AtLevel(issues, Error)| && c.warning == |AtLevel(issues, Warning)| && c.notice == |AtLevel(issues, Notice)|
  {
    if issues != [] {
      var front, last := issues[..|issues|-1], issues[|issues|-1];
      assert front + [last] == issues;
      CountsAreLevels(front);
      CountSnoc(front, last);
      AtLevelSnoc(front, last, Error);
      AtLevelSnoc(front, last, Warning);
      AtLevelSnoc(front, last, Notice);
    }
  }

  /** Everything the engines of a list report, page by page. */
  function AllFindings(opts: Options, checks: Checks, engines: seq<Engine>, scanned: seq<Page>): seq<Issue> {
    if scanned == [] then [] else
    AllFindings(opts, checks, engines, scanned[..|scanned|-1]) + AllAdded(opts, checks, engines, scanned[|scanned|-1].url, |scanned| - 1)
  }

  lemma PlusSwap(a: Counts, b: Counts, c: Counts, d: Counts)
    ensures Plus(Plus(a, b), Plus(c, d)) == Plus(Plus(a, c), Plus(b, d))
  {
  }

  lemma AddPage(shown: seq<Issue>, found: seq<Issue>, all: seq<Issue>, page: seq<Issue>, more: seq<Issue>)
    requires CountIssues(all) == Plus(CountIssues(shown), CountIssues(found))
    ensures CountIssues(all + (page + more)) == Plus(CountIssues(shown + page), CountIssues(found + more))
  {
    CountsAdd(all, page + more);
    CountsAdd(page, more);
    CountsAdd(shown, page);
    CountsAdd(found, more);
    PlusSwap(CountIssues(shown), CountIssues(found), CountIssues(page), CountIssues(more));
  }

  /** The engines only add: the summary of a deep scan is the static summary plus the findings, level by level. */
  lemma {:induction false} EnginesOnlyAdd(opts: Options, checks: Checks, engines: seq<Engine>, scanned: seq<Page>, pages: seq<Page>)
    requires Extended(opts, checks, engines, scanned, pages)
    ensures CountIssues(AllIssues(pages))
         == Plus(CountIssues(AllIssues(scanned)), CountIssues(AllFindings(opts, checks, engines, scanned)))
  {
    if scanned != [] {
      var n := |scanned| - 1;
      EnginesOnlyAdd(opts, checks, engines, scanned[..n], pages[..n]);
      AddPage(AllIssues(scanned[..n]), AllFindings(opts, checks, engines, scanned[..n]), AllIssues(pages[..n]),
              scanned[n].issues, AllAdded(opts, checks, engines, scanned[n].url, n));
    }
  }
}
