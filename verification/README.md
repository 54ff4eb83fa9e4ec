# Verified models of Luqen's algorithms and protocols

Luqen is an accessibility-compliance platform. Most of it is HTTP, storage and UI plumbing; this project models the
parts that hold real algorithms or protocols and proves what they are for. `dafny verify dfyconfig.toml` checks
everything. Each module follows one component:

| module | component |
|---|---|
| `Common` | options, JavaScript `Map`s (insertion-ordered), sums over maps |
| `Jurisdictions` | closing a set of jurisdictions under "parent" |
| `Compliance`, `ComplianceViews`, `ComplianceEntries`, `ComplianceMeaning` | the compliance check: one query, three views, why the views agree, what an entry lists, and what all of it says of the stored rows |
| `RequirementDiff`, `Proposals`, `DiffApply`, `ProposalHandlers` | requirement diffs, what applying them does, the round trip, and the handlers |
| `Shutdown` | graceful shutdown with a hard deadline |
| `WorkerPool` | the batch scan's worker pool |
| `Scheduler` | the claim-before-start scan scheduler |
| `Monitor` | the source monitor's scan cycle |
| `SseReader` | the incremental reader of an agent conversation stream |
| `Analyzer` | the change analyzer and its greedy pairing of reworded items |
| `EffectiveRoles` | role aggregation over org memberships and team scopes |
| `BrandingStores` | the two site-to-guideline stores |
| `EnginePasses` | the additive scan engines |
| `MatrixSort` | the deterministic RBAC matrix |
| `CsvParser` | the CSV line splitter |

How the code is represented:

- Loops that update variables are methods with loops, and objects with mutable fields are classes. Each is proved equal to
  a specification function of its inputs or of the old state; the lemmas then say what that function means.
- Awaits inside one request are sequential steps over immutable tables. Where interleaving at the awaits is the point
  (`Shutdown`, `WorkerPool`, `Scheduler`) the component is a transition system whose steps are the blocks between awaits,
  timer callbacks and outside events, and the results hold in every state of every run.
- Network and storage outcomes, clocks and identifiers are inputs: a fetch may fail, a remote write may be lost, or may
  take effect and still report failure.
- Parsing an issue code, JSON decoding with schema validation, and splitting an item into lower-cased words are
  arbitrary functions, so the results hold for all of them.

Where the code and its comments or a natural reading disagree, the model follows the code:

- The apply step catches an exception in order to "skip duplicates" (`proposals.ts:46-50`), but the requirements table of
  the SQLite adapter has no uniqueness constraint (`sqlite-adapter.ts:323-334`). `Proposals.Table.refuses` covers both kinds of
  adapter; `DiffApply.ApplyAgain` says exactly when a second application is harmless. No handler looks at a proposal's
  status, so approving and then acknowledging one is such a second application.
- The apply step passes over removed and changed entries with an empty criterion or regulation id, and its lookup spans all
  orgs although rows belong to one. A slot may be stored for several orgs; a removal then takes the first row, whoever owns
  it, and brings the next to light. `DiffApply.RoundTrip` and `DiffApply.OtherOrgsKeptIff` give the exact conditions.
- The jurisdiction matrix adds excluded rows to its optional total; the regulation matrix does not count them. The sector filter
  applies to the jurisdiction matrix only.
- Both matrices are plain objects, for which `OMap` stands too. Assigning the property `__proto__` of one sets its prototype,
  so that id gets no entry and is not in the summary (`ComplianceViews.SummaryOfResponse`).
- Role ranks are looked up in a plain object, which also has the names it inherits, such as `constructor`. `?? 0` does not replace
  what those give: against a number it compares as NaN, and two of them compare as texts. A role of such a name that
  is granted first hides every built-in role (`EffectiveRoles.MaxRankIff`, `EffectiveRoles.RanksAreOrderFreeIff`). Apart from
  that, for a user without an org-level role, the role name (unlike its rank) can depend on the order in which the teams are
  listed when custom roles tie (`EffectiveRoles.NamesAreOrderFreeIff`).
- The monitor updates the stored hash through a route that asks for a management mode and answers 400 to the monitor's request
  (`packages/compliance/src/api/routes/sources.ts:513-537`). Against that service every update is lost, and a changed source is
  proposed again in every cycle (`Monitor.ProposedEveryTime`). The other results hold for services that take the update as well.
- Node takes a timer delay below 1 or beyond 31 bits as 1 ms, so a very long shutdown deadline fires at once.
- The CSV splitter drops every double quote; doubled quotes (section 2, rule 7, of RFC 4180) are not an escape.
- The matrix key is injective only for fields without NUL characters.

## Model

| member | source | states |
|---|---|---|
| Jurisdictions.ResolveJurisdictionHierarchy | packages/compliance/src/engine/checker.ts:15-32 | the work list ends on every table (cyclic or dangling links included) with the least superset of the request closed under parent |
| Jurisdictions.HierarchyMeans | packages/compliance/src/engine/checker.ts:15-32 | the resolved set has the request and every `parentId` the table gives one of its ids, and nothing that is not forced by that |
| Jurisdictions.ClosureIsAncestors | packages/compliance/src/engine/checker.ts:15-32 | the resolved set is exactly the requested ids and all their ancestors |
| Jurisdictions.ClosureOfUnion | packages/compliance/src/engine/checker.ts:104-117 | closing parts and joining them equals closing the whole, so hierarchies can be added one by one |
| Compliance.WidenForRegulations | packages/compliance/src/engine/checker.ts:88-118 | widening one named regulation at a time reaches the closure of all requested and home jurisdictions together; unknown regulations add nothing |
| Compliance.CacheRegulations | packages/compliance/src/engine/checker.ts:126-136 | the caches answer sectors and scope as the table does for every queried row |
| Compliance.FindMatchingRegulations | packages/compliance/src/engine/checker.ts:298-314 | with the cached sectors an issue is matched by the rows `FindMatching` gives for the regulation table |
| Compliance.DecodeInvertsKey | packages/compliance/src/engine/checker.ts:359-360 | cutting a violation key at its last colon recovers criterion and obligation for any criterion text |
| Compliance.CollectViolations | packages/compliance/src/engine/checker.ts:334-362 | the loop nest over rows and issues builds the map of maps given by `Groups` |
| ComplianceViews.GroupsCount | packages/compliance/src/engine/checker.ts:332-362 | the map of maps stores exactly the matching (row, issue) pairs, for any choice of obligation, regulation and criterion |
| Compliance.BuildJurisdictionResult | packages/compliance/src/engine/checker.ts:318-417 | a matrix entry is `JurisdictionEntry` of the rows in the jurisdiction's own hierarchy |
| ComplianceViews.JurisdictionTotals | packages/compliance/src/engine/checker.ts:364-417 | the totals are numbers of (row, issue) pairs, "optional" also counts excluded rows, and the status is "fail" exactly when a mandatory pair exists |
| ComplianceViews.JurisdictionLists | packages/compliance/src/engine/checker.ts:374-405 | the listed violations of a regulation are pair counts per criterion and obligation, decoded from string keys |
| ComplianceViews.JurisdictionVerdict | packages/compliance/src/engine/checker.ts:381-405 | a regulation fails in a matrix entry exactly when it has a mandatory pair |
| Compliance.BuildRegulationEntry | packages/compliance/src/engine/checker.ts:216-280 | a regulation matrix entry is `RegulationView` of the rows of that regulation |
| ComplianceViews.RegulationViewLists | packages/compliance/src/engine/checker.ts:232-258 | the violations listed for a regulation are its visible pairs per criterion and obligation |
| ComplianceViews.RegulationViewTotals | packages/compliance/src/engine/checker.ts:228-263 | the three totals of a regulation are its visible pairs; excluded rows are in none |
| ComplianceViews.ExcludedCountsAsOptional | packages/compliance/src/engine/checker.ts:392-394 | an excluded row that an issue hits is an optional violation in one matrix and nothing in the other |
| Compliance.CheckCompliance | packages/compliance/src/engine/checker.ts:59-294 | the response consists of the jurisdiction matrix, regulation matrix, annotations and summary of one set of queried rows; the matrices are plain objects, which do not keep the id `__proto__` |
| ComplianceViews.ViewsAgree | packages/compliance/src/engine/checker.ts:151-201 | double counting: with no named regulations the annotations of all issues within a jurisdiction's hierarchy add up to its mandatory and recommended totals, wildcard rows and sector filters included |
| ComplianceViews.NarrowQuery | packages/compliance/src/db/sqlite-adapter.ts:738-783 | filtering the wide query by a smaller jurisdiction set is the narrow query, row for row |
| ComplianceViews.BatchIndependence | packages/compliance/src/engine/checker.ts:179-201 | each jurisdiction of a batch gets exactly the entry it would get if asked alone without named regulations, and has none in both cases if it is `__proto__` |
| ComplianceViews.RegulationViewsAgree | packages/compliance/src/engine/checker.ts:216-280 | both matrices list the same violations of a named regulation at home in a jurisdiction's hierarchy, unless the sector filter drops that regulation from the jurisdiction matrix |
| ComplianceViews.ExcludedListsAgreeIff | packages/compliance/src/engine/checker.ts:238-239 | on "excluded" the two lists agree if and only if the sector filter drops the regulation or no such pair exists |
| ComplianceViews.VerdictsAgree | packages/compliance/src/engine/checker.ts:260-268 | both matrices give such a regulation the same "fail" verdict, up to the sector filter |
| ComplianceViews.SummaryOfResponse | packages/compliance/src/engine/checker.ts:203-208 | the summary splits the distinct requested jurisdictions other than `__proto__` into passing and failing; it covers all of them if and only if that one is not requested, and none fails exactly when there is no mandatory violation |
| ComplianceViews.ProtoIsDropped | packages/compliance/src/engine/checker.ts:180-200 | a request for `__proto__` alone is answered with an empty matrix and a count of 0 |
| ComplianceEntries.EntryDescribes | packages/compliance/src/engine/checker.ts:342-405 | a matrix entry describes, once each and as the regulation table does, exactly the regulations with a stored row that the query selects for that jurisdiction and that passes the sector filter |
| ComplianceEntries.ViolationsListedOnce | packages/compliance/src/engine/checker.ts:374-390 | neither matrix lists a (criterion, obligation) twice or without an issue |
| ComplianceEntries.RegulationStatus | packages/compliance/src/engine/checker.ts:216-268 | exactly the named known regulations have an entry; it fails on a mandatory pair, passes when no visible pair exists and is partial otherwise |
| ComplianceMeaning.MatrixMeans | packages/compliance/src/engine/checker.ts:179-201 | an entry has the jurisdiction's name and, per obligation, the number of (stored row, issue) pairs at home in its hierarchy that the org may see, whose criterion is the issue's or "*", and that pass the sector filter; it fails exactly when a mandatory one exists |
| ComplianceMeaning.MatrixListsMean | packages/compliance/src/engine/checker.ts:364-405 | what an entry lists per regulation, criterion and obligation is the number of such pairs |
| ComplianceMeaning.RegulationMatrixMeans | packages/compliance/src/engine/checker.ts:216-280 | exactly the named known regulations have an entry, with what the table says of them, the pairs of their rows wherever they are at home and whatever the sector filter, and the status these give |
| ComplianceMeaning.RegulationListsMean | packages/compliance/src/engine/checker.ts:228-258 | what such an entry lists per criterion and obligation is the number of these pairs |
| ComplianceMeaning.AnnotationMeans | packages/compliance/src/engine/checker.ts:138-177 | an annotated issue has its code, its criterion (or code), its level (or "A") and, in table order, exactly the stored rows within reach that it violates and that belong to a named regulation if any is named |
| ComplianceMeaning.AnnotatedIff | packages/compliance/src/engine/checker.ts:148-177 | a row is annotated on an issue if and only if such a stored row exists |
| ComplianceMeaning.AnnotationsAddUp | packages/compliance/src/engine/checker.ts:148-177 | double counting for every request: the annotations of an obligation at home in a jurisdiction set, of one regulation or of all, are the pairs of issues and rows they carry |
| ComplianceMeaning.RegulationAnnotationsAgree | packages/compliance/src/engine/checker.ts:216-263 | with named regulations the annotations of one of them add up to its totals in the regulation matrix, unless the sector filter drops them |
| ComplianceMeaning.SummaryMeans | packages/compliance/src/engine/checker.ts:203-208 | passing, failing, mandatory and optional totals are sums over the entries, each counted once |
| RequirementDiff.DiffRequirements | packages/compliance/src/parsers/requirement-differ.ts:24-57 | the two loops compute `DiffOf` |
| RequirementDiff.SlotKeysAreInjective | packages/compliance/src/parsers/requirement-differ.ts:20-22 | the joined key determines version and criterion |
| RequirementDiff.DiffMeans | packages/compliance/src/parsers/requirement-differ.ts:36-55 | added, removed and changed are exactly the slots that are new, gone or have another obligation, with the extracted obligation |
| RequirementDiff.DiffEntries | packages/compliance/src/parsers/requirement-differ.ts:36-55 | additions are extracted rows, removals are current rows, and a change is an extracted row with the obligation the current rows say |
| RequirementDiff.HasChangesIff | packages/compliance/src/parsers/requirement-differ.ts:36-56 | changes are reported if and only if the two lists say different obligations; level and notes do not matter |
| Proposals.TargetMeans | packages/compliance/src/engine/proposals.ts:55-58 | looking up by regulation, version and criterion finds the first row of that slot, whatever its org, or nothing when there is none |
| Proposals.RemovedEffect | packages/compliance/src/engine/proposals.ts:52-63 | a removal takes the first row of its slot unless its regulation id or criterion is empty, nothing of another slot or regulation, and nothing of other orgs exactly when that row is not theirs |
| Proposals.ChangedEffect | packages/compliance/src/engine/proposals.ts:65-79 | a change rewrites the obligation of the first row of its slot and nothing else unless an id is empty or the slot is missing, and nothing of other orgs exactly when that row is not theirs or has the obligation already |
| ProposalHandlers.Database.ApplyRequirementDiff | packages/compliance/src/engine/proposals.ts:39-80 | the three loops leave the table `Applied` describes |
| ProposalHandlers.Database.SafeApplyChange | packages/compliance/src/engine/proposals.ts:19-36 | a content-hash payload leaves the rows of every slot as they were; a requirement diff of two lists leaves the rows `Outcome` gives and, under the round-trip condition, the extracted obligations |
| ProposalHandlers.EffectMeans | packages/compliance/src/engine/proposals.ts:19-80 | the same as a statement about the tables before and after |
| ProposalHandlers.Database.ApplyAndMark | packages/compliance/src/engine/proposals.ts:125-143 | the payload has that effect whatever the status was, and the stored proposal has the verdict, who gave it and when (as reviewed or as acknowledged), and given notes; other proposals stay, and an unknown one changes nothing |
| ProposalHandlers.Database.OnlyMark | packages/compliance/src/engine/proposals.ts:145-161 | rejecting and dismissing store the verdict, who gave it and when, and given notes, and leave the requirements alone |
| DiffApply.ApplyKeeps | packages/compliance/src/engine/proposals.ts:39-80 | applying a diff leaves other regulations' rows untouched and keeps ids unique, on both kinds of adapter |
| DiffApply.ApplyKeepsUniqueIff | packages/compliance/src/engine/proposals.ts:39-80 | slots that were stored at most once stay so if and only if the adapter refuses taken slots or every added slot is free |
| DiffApply.ApplyOutcome | packages/compliance/src/engine/proposals.ts:45-79 | the rows of every slot after the three loops: one more for an addition, the first gone for a removal, the first with the new obligation for a change, otherwise the same |
| DiffApply.RoundTrip | packages/compliance/src/engine/proposals.ts:39-80 | from rows that say what `current` says, for any number of orgs, applying the diff stores exactly the extracted obligations if and only if no removed or changed entry has an empty criterion or regulation id and no removed slot has a second row |
| DiffApply.OtherOrgsKeptIff | packages/compliance/src/engine/proposals.ts:55-77 | whatever is stored, the rows of other orgs survive if and only if the additions belong to the org or are refused, and so does the first row of every slot that is removed or gets another obligation |
| DiffApply.RemovalHitsOtherOrg | packages/compliance/src/engine/proposals.ts:55-61 | a slot stored for one org and then for another: the second org's removal takes the first org's row, whatever the obligations |
| DiffApply.EmptyCriterionSurvives | packages/compliance/src/engine/proposals.ts:54 | a stored requirement with an empty criterion survives its removal |
| DiffApply.ApplyAgain | packages/compliance/src/engine/proposals.ts:45-50 | whatever is stored, a second application changes nothing if and only if the adapter refuses taken slots or the diff adds nothing, and no removed slot had a second row; on an adapter that does not refuse, it adds one more row to every added slot |
| DiffApply.TwiceKeepsUniqueIff | packages/compliance/src/engine/proposals.ts:45-50 | slots that were unique still are after two applications if and only if the adapter refuses taken slots or the diff adds nothing |
| DiffApply.SecondApplyDuplicates | packages/compliance/src/db/sqlite-adapter.ts:685-694 | on the shipped table two applications of one addition store its slot twice |
| Shutdown.EveryRunIsSafe | packages/dashboard/src/shutdown.ts:79-118 | in every interleaving of signals, step outcomes and timers: at most one exit, no start after it, steps in order, each ending no later than its bound and timing out only at it, code 0 only after all steps ended, code 1 only when the deadline timer is due, and no unexited moment past that |
| Shutdown.OneShutdownPerRun | packages/dashboard/src/shutdown.ts:109-117 | later signals start no second run: start time and log are kept |
| Shutdown.ExitedPastDeadline | packages/dashboard/src/shutdown.ts:94-97 | past start plus deadline the process has exited, no later than that instant, even when a step hangs |
| Shutdown.DeadlineIsKeptIff | packages/dashboard/src/shutdown.ts:94-97 | every exit of every run comes no later than start plus deadline if and only if the deadline is at least 1 ms |
| Shutdown.ForcedOnTimeIff | packages/dashboard/src/shutdown.ts:94-97 | every forced exit of every run comes exactly at start plus deadline if and only if the deadline is from 1 ms to 31 bits |
| Shutdown.StepTimesOutOnTimeIff | packages/dashboard/src/shutdown.ts:53-72 | in every run a step with a timeout times out exactly that long after its start if and only if the timeout is from 1 ms to 31 bits |
| Shutdown.UnboundedNeverTimesOut | packages/dashboard/src/shutdown.ts:54-57 | a step without a timeout never times out |
| Shutdown.WhileAwaited | packages/dashboard/src/shutdown.ts:58-75 | an awaited step can settle or throw and the run goes on; it can time out at its due instant and at no other, and time may pass exactly up to that and to the overall deadline |
| Shutdown.NeverStuck | packages/dashboard/src/shutdown.ts:98-106 | before the exit some step of the run, or time, can always move it |
| WorkerPool.NothingLostOrRepeated | packages/core/src/mcp.ts:454-464 | under every interleaving the claimed indices are 0..queueIndex-1, each in flight in one worker or recorded once, and at most min(concurrency, n) scans are in flight |
| WorkerPool.OneResultPerUrl | packages/core/src/mcp.ts:466-470 | when all workers are done there is one result per URL: a permutation of the queue, each labelled with its own URL |
| WorkerPool.OutcomeIsRecorded | packages/core/src/mcp.ts:458-461 | a scan in flight can end in any way, and that outcome is recorded for its URL |
| WorkerPool.AlwaysProgress | packages/core/src/mcp.ts:455-464 | every step leaves less work and some step is possible until all workers are done |
| Scheduler.ComputeNextRunAt | packages/dashboard/src/routes/schedules.ts:26-42 | the next run is at least a day after the given instant, for every frequency text |
| Scheduler.EveryRunIsSafe | packages/dashboard/src/scheduler.ts:52-109 | passes never overlap, every attempt directly follows its claim, claims of one schedule carry its one frequency and are a period of it apart, and a pass that ends has handled its whole list |
| Scheduler.StartsAreClaimedApart | packages/dashboard/src/scheduler.ts:60-72 | between two starts of a schedule a claim moved its next run past the first instant and not past the second, by 1, 30 or 7 days for its stored frequency |
| Scheduler.AttemptedOncePerClaim | packages/dashboard/src/scheduler.ts:59-76 | in a pass that ended a claimed schedule was attempted exactly once and an unclaimed one never, whatever failed for the others |
| Scheduler.LoadsTheDue | packages/dashboard/src/db/sqlite/repositories/schedule-repository.ts:128-134 | in every run a pass loads exactly the schedules that are stored, enabled and have a next run no later than the pass instant |
| Scheduler.StartedWasDue | packages/dashboard/src/scheduler.ts:57-72 | in every run a started schedule was stored, enabled and due when its pass loaded it |
| Scheduler.DueIsStarted | packages/dashboard/src/scheduler.ts:57-72 | from every store a due schedule can be claimed and started by the first pass, at the instant of its tick |
| Scheduler.FailuresGoOn | packages/dashboard/src/scheduler.ts:60-76 | a failed read ends the pass, a failed claim or start moves on to the next schedule, and the store is left as it was |
| Monitor.RunScan | packages/monitor/src/agent.ts:92-219 | a connected cycle has the effect of `Cycle`, a standalone one writes nothing, the counts and error ids are those of the sources' fates, and scanned = changed + unchanged + errors |
| Monitor.CycleTallies | packages/monitor/src/agent.ts:136-213 | a source counts as unaltered when the fetched hash is the stored one, as changed when a proposal with its URL and new hash was confirmed, and as an error when the fetch or the proposal failed; the lists are in source order |
| Monitor.CycleMeans | packages/monitor/src/agent.ts:136-206 | the service gets every proposal that was not lost, and a source's stored hash becomes the fetched one exactly when that was unaltered or proposed and the update was not lost |
| Monitor.CycleJustified | packages/monitor/src/agent.ts:136-206 | within a cycle a stored hash changes only together with a new proposal for that source carrying that hash |
| Monitor.NoLostChange | packages/monitor/src/agent.ts:136-206 | the same over any sequence of cycles with arbitrary fetch, proposal and update failures |
| Monitor.UnproposedIsSeenAgain | packages/monitor/src/agent.ts:144-151 | content that never got a proposal is proposed by the next cycle that fetches it and gets through |
| Monitor.ProposedAgainIff | packages/monitor/src/agent.ts:177-203 | content that was proposed is proposed again by the next cycle that fetches it and gets through if and only if the update of the stored hash was lost |
| Monitor.ProposedEveryTime | packages/monitor/src/compliance-client.ts:243-266 | if every update is lost the stored hashes never move and each cycle proposes what the first did |
| Monitor.ComplianceService.UpdateSourceLastChecked | packages/monitor/src/compliance-client.ts:243-266 | a lost update leaves the stored hash; otherwise only that source changes |
| SseReader.BlankLine | packages/dashboard/src/llm-client.ts:681 | the delimiter found is the first one, or none exists |
| SseReader.SplitAppend | packages/dashboard/src/llm-client.ts:678-701 | splitting a text and then its rest with more text equals splitting the joined text, cuts inside a delimiter included |
| SseReader.SplitMeans | packages/dashboard/src/llm-client.ts:678-684 | the blocks with a blank line after each, and then the rest, are the text again; no block contains a delimiter or begins one with its last newline, and neither does the rest |
| SseReader.SplitIsUnique | packages/dashboard/src/llm-client.ts:678-684 | only the computed split is of that kind |
| SseReader.FramesMean | packages/dashboard/src/llm-client.ts:681-684 | the frames are those of the complete blocks, first to last; an unterminated rest counts for nothing |
| SseReader.ParseMeans | packages/dashboard/src/llm-client.ts:29-44 | the first line that starts with "data:" once trimmed decides, the frame is decoded from what follows, and a block without one or with nothing after it has none |
| SseReader.TrimMeans | packages/dashboard/src/llm-client.ts:32-36 | trimming takes white space off both ends and nothing else |
| SseReader.SpacesAre | packages/dashboard/src/llm-client.ts:32-36 | the 25 code points JavaScript trims |
| SseReader.TurnMeans | packages/dashboard/src/llm-client.ts:686-716 | the text is the token texts joined first to last, followed by the notice exactly when the reason is "length"; calls and reason are those of the last frame of their kind |
| SseReader.Reader.Feed | packages/dashboard/src/llm-client.ts:678-701 | after each chunk the buffer holds no complete delimiter and the accumulators match one split of all text so far |
| SseReader.StreamAgentConversation | packages/dashboard/src/llm-client.ts:663-716 | turn and forwarded frames depend only on the chunks joined in order: the token texts in order with the notice of a truncated turn, and the token, tool-calls, done and error frames in order |
| SseReader.WireRoundTrip | packages/llm/src/api/routes/capabilities-exec.ts:810-812 | reading what the conversation service sends, or what the frame writer with its event line would send, gives exactly the written frames and leaves no rest |
| SseReader.ParsesBack | packages/dashboard/src/llm-client.ts:29-44 | the first data line of a written block decodes to its frame; an event line is passed over |
| Analyzer.FindModified | packages/monitor/src/analyzer.ts:61-92 | the nested loops compute the rewordings of `GreedyPairs` and, in order, the items it leaves unpaired |
| Analyzer.PairsAreGreedy | packages/monitor/src/analyzer.ts:70-85 | the pairs are one-to-one and first fit, each shares more than half of its joint words, and no pair left over does |
| Analyzer.SectionsModified | packages/monitor/src/analyzer.ts:78-79 | each pair, and nothing else, is reported as the removed item and the added one, quoted, with an arrow between |
| Analyzer.UnmatchedInOrder | packages/monitor/src/analyzer.ts:87-91 | the leftovers are the items at the positions not taken, in order |
| Analyzer.DifferenceInOrder | packages/monitor/src/analyzer.ts:48-54 | a set difference keeps the order of the items |
| Common.DedupMeans | packages/monitor/src/analyzer.ts:44-46 | a set built from a list iterates over the first occurrences, in order |
| Analyzer.GreedyIsUnique | packages/monitor/src/analyzer.ts:70-85 | those properties leave only one possible pairing |
| Analyzer.AnalyzeChanges | packages/monitor/src/analyzer.ts:113-129 | the sections are the greedy pairing of the two set differences |
| Analyzer.AnalyzeContents | packages/monitor/src/analyzer.ts:100-135 | equal contents are unchanged with empty sections, others are compared item by item |
| Analyzer.SectionsRebuild | packages/monitor/src/analyzer.ts:119-129 | old items minus removed and paired ones plus added and paired ones is the new item set |
| EffectiveRoles.ResolveEffectiveRoles | packages/dashboard/src/permissions.ts:307-361 | the loops record exactly the grants of memberships and team scopes, in order |
| EffectiveRoles.GrantsAre | packages/dashboard/src/permissions.ts:326-354 | a grant exists exactly when the first member entry of the user has a non-empty role, or a team of the user has a known role and is at home in or linked to the org |
| EffectiveRoles.RankOrders | packages/dashboard/src/permissions.ts:256-262 | Owner over Admin over Member over Executive over Viewer over every other name that is not inherited by plain objects |
| EffectiveRoles.OutranksMeans | packages/dashboard/src/permissions.ts:320-322 | any two names: by rank when neither is inherited, by the texts of what they inherit when both are, and never otherwise |
| EffectiveRoles.EntryMeans | packages/dashboard/src/permissions.ts:313-323 | an entry has all sources of its org in order and the role of the first source that none outranks, among those ranked by the same kind of value as the first source |
| EffectiveRoles.EntriesMean | packages/dashboard/src/permissions.ts:356-360 | each returned entry carries the sources and the role of its org |
| EffectiveRoles.MaxRankIff | packages/dashboard/src/permissions.ts:320-322 | the role has the maximum rank among its sources if and only if the first source has no inherited name or no source is a built-in role |
| EffectiveRoles.FirstMaxIff | packages/dashboard/src/permissions.ts:320-322 | the role is that of the first source of maximum rank if and only if the first source has no inherited name, or has one that no other inherited name outranks and no source is a built-in role |
| EffectiveRoles.InheritedNameHides | packages/dashboard/src/permissions.ts:320-354 | a team with "constructor" listed before a team with "Admin" gives "constructor", listed after it "Admin" |
| EffectiveRoles.OneEntryPerOrg | packages/dashboard/src/permissions.ts:356-360 | one entry per org, exactly for the orgs something grants |
| EffectiveRoles.RanksAreOrderFreeIff | packages/dashboard/src/permissions.ts:307-361 | orgs and ranks are the same for every order and repetition of memberships and links if and only if the user has an org-level role there or the grants do not mix a built-in role and an inherited name |
| EffectiveRoles.NamesAreOrderFreeIff | packages/dashboard/src/permissions.ts:307-361 | the role name of an org is the same for every order and repetition of memberships and links if and only if the user has an org-level role there or the grants nothing outranks name the same role |
| EffectiveRoles.KnownRolesAreOrderFreeIff | packages/dashboard/src/permissions.ts:256-361 | with a built-in role among the grants that is so if and only if the user has an org-level role there or no grant has an inherited name |
| EffectiveRoles.CustomRolesTie | packages/dashboard/src/permissions.ts:320-354 | two teams with different custom roles: the one listed first gives the name |
| BrandingStores.GuidelineStore.AssignToSite | packages/branding/src/store.ts:36-42 | the new assignment replaces every earlier one of that site and org |
| BrandingStores.GuidelineStore.GetGuidelineForSite | packages/branding/src/store.ts:50-56 | the guideline of the first assignment of a site, if it still exists |
| BrandingStores.SqliteAdapter.AssignToSite | packages/branding/src/db/sqlite-adapter.ts:370-375 | the keyed row is replaced, or the statement fails for an unknown guideline |
| BrandingStores.SqliteAdapter.RemoveGuideline | packages/branding/src/db/sqlite-adapter.ts:289-291 | the delete cascades to the assignments of the guideline and to no others |
| BrandingStores.StoresAgree | packages/branding/src/db/sqlite-adapter.ts:370-394 | after every run of accepted operations both stores answer alike, with at most one assignment per site and org, and list the same site URLs equally often |
| BrandingStores.AnswersMean | packages/branding/src/store.ts:13-56 | in both stores a guideline is found exactly when it was added and not removed since, and is that of a site exactly when it was assigned to it and nothing since ended that |
| BrandingStores.StepAgreesIff | packages/branding/src/store.ts:13-48 | one more operation keeps the stores in agreement if and only if the tables accept it or it re-adds an identical guideline |
| BrandingStores.UnknownGuidelineShows | packages/branding/src/store.ts:36-42 | assigning an unknown guideline makes the stores differ |
| BrandingStores.SqliteAdapter.GetSiteAssignments | packages/branding/src/db/sqlite-adapter.ts:389-394 | the query lists one URL per row of the guideline, in no particular order |
| BrandingStores.ListedUrls | packages/branding/src/store.ts:58-62 | the in-memory list has a URL once for each org that assigned the guideline to it |
| BrandingStores.ListedSites | packages/branding/src/store.ts:58-62 | a guideline's site list has one entry per assignment row |
| EnginePasses.RunPass | packages/core/src/index.ts:441-486 | a pass appends the mapped findings of pages below the cap and returns every other page unchanged |
| EnginePasses.RunEngines | packages/core/src/index.ts:332-413 | every page keeps place, URL and static issues, followed by the successful engines' findings in pass order; the issue count is right if it was or something was added; the level counts sum to all issues |
| EnginePasses.AddedInOrder | packages/core/src/index.ts:441-486 | what is added to a page: per engine in pass order, when switched on and below its cap (10 pages for the behavioral one, else 5), each finding with its fields, the runner and the documentation hint |
| EnginePasses.CountsAreLevels | packages/core/src/index.ts:388-399 | each level count is the number of issues of that level |
| EnginePasses.EnginesOnlyAdd | packages/core/src/index.ts:388-399 | the level counts are those of the static scan plus those of the engines' findings, level by level |
| MatrixSort.DedupeAndSort | scripts/generate-rbac-matrix.ts:411-423 | strictly increasing rows, the first row of each key |
| MatrixSort.ResultAscends | scripts/generate-rbac-matrix.ts:417-422 | rows ascend by permission, surface, surface type and source, each by the first differing code unit |
| MatrixSort.SortedIsUnique | scripts/generate-rbac-matrix.ts:417-422 | only one strictly increasing list has given rows, so any sort by the comparator gives it |
| MatrixSort.KeepsAllRowsIff | scripts/generate-rbac-matrix.ts:412-416 | the matrix has exactly the given rows if and only if different rows have different keys |
| MatrixSort.DeterministicIff | scripts/generate-rbac-matrix.ts:411-423 | every list of the same rows gives the same matrix if and only if different rows have different keys |
| MatrixSort.NulFreeIsDistinct | scripts/generate-rbac-matrix.ts:414 | rows without NUL characters have different keys |
| MatrixSort.NulRowsCollide | scripts/generate-rbac-matrix.ts:414 | two rows with NUL characters share a key and the order shows |
| CsvParser.SplitCSVLine | packages/branding/src/parser/csv-parser.ts:34-52 | the character loop computes `Split` |
| CsvParser.SplitAtComma | packages/branding/src/parser/csv-parser.ts:43-45 | for any line, a comma after an even number of quotes separates the fields before it from those after it |
| CsvParser.SplitOne | packages/branding/src/parser/csv-parser.ts:39-51 | a line whose commas all stand after an odd number of quotes is one field, the line without its quotes |
| CsvParser.SplitOfJoin | packages/branding/src/parser/csv-parser.ts:34-52 | splitting a line of quoted fields returns each field without its quotes, commas inside fields kept |
| CsvParser.SplitInvertsQuotingIff | packages/branding/src/parser/csv-parser.ts:34-52 | splitting inverts quoting if and only if no field contains a double quote |
| CsvParser.QuotesAreLost | packages/branding/src/parser/csv-parser.ts:41-42 | a field that is one double quote comes back empty |

## Left out

- Shutdown.EveryRunIsSafe: timers fire at the instant they are due; an event loop that is kept busy past that instant is not modelled.
- Shutdown, WorkerPool, Scheduler: modelled as transition systems on values rather than as objects with captured variables, so aliasing of the captured state is not captured.
- Compliance.CheckCompliance: the tables do not change during a check, the query returns rows in table order, the fields that are only copied (level and notes of a row, the original issue) are omitted, and so is the order in which a plain object lists number-like ids, on which no result depends.
- EnginePasses.RunEngines: the shared browser, its release and the static scan itself are not modelled; page fields the passes never touch are omitted.
- Monitor.RunScan: the cached text and the summary written from it are not modelled, because the new text is saved before the old one is read; concurrent cycles are not modelled.
- Monitor.ComplianceService.UpdateSourceLastChecked: the service takes the update or loses it; the validation that makes the repository's own route refuse it is covered as a lost update.
- ProposalHandlers.Database.CreateRequirement: row ids are consecutive numbers instead of random ones, and the regulation a row refers to is assumed to exist.
- ProposalHandlers.Database.SafeApplyChange: payloads that create, update or delete a single jurisdiction, regulation or requirement are not modelled.
- ProposalHandlers.Database.ApplyAndMark: limited to the same payloads as SafeApplyChange.
- Scheduler.EveryRunIsSafe: the clock does not go backwards, a failed claim leaves the row as it was, a schedule is created under an id that was never used and keeps its frequency (no route changes it), and the time of the last run is not recorded.
- SseReader.StreamAgentConversation: decoding bytes to text and the HTTP exchange are not modelled; chunks are text. Only the part of sections 9.2.5 and 9.2.6 of the WHATWG HTML Living Standard that the code handles is covered: blank lines as `\n\n` and the first data line.
- MatrixSort.DedupeAndSort: the library sort is stood for by insertion; any sort by the comparator gives the same list.
- Analyzer.FindModified: the word sets are an arbitrary function of the item, and the similarity test is the exact integer comparison.
- BrandingStores.SqliteAdapter.AddGuideline: a guideline is one value; its color, font and selector tables are not modelled.
- Version bumps by `updateGuideline` and the listing of guidelines, where the two stores differ on purpose.
- Effective permissions and their filters, pagination, configuration, catalogues, status pages: they would only add easy members.
- Entity ids of the proposals a diff can be turned into, which depend on adapter row ids.
- Splitting content into paragraphs and lines, the wording of summaries, RSS, CSS and RBAC source scraping: regular expressions are not modelled.
- HTTP servers, authentication, browsers, caches, key rotation and process signals other than the shutdown request.
