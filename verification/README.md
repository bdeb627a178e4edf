# Aegis: verified models of the agent, enrichment and enforcement core

Dafny models of the algorithms that carry the repository's guarantees, each in the
form of its source: classes and loops where the source updates state, datatypes and
functions where it computes. Methods are proved against specification functions, and
the promises are proved as lemmas about those. `dafny verify dfyconfig.toml` checks
everything.

| component | modules |
|---|---|
| detection-pack evaluator | `PackSemantics` (meaning), `PackRun` (one unbudgeted run and its cost), `PackTheorems`, `PackBounds`, `PackGroups` (what groups and leaves return), `PackReads` (what a pack document says), `PackMonotone`, `PackCase`, `PackEval` (budgeted clauses), `PackLoop` (rule loop), `PackGuarantees`, `PackBatch` |
| calendar and time stamps | `Calendar`, `Decimal`, `Timestamp`, `Windows` |
| event text, spool, delivery | `Json`, `JsonTorn`, `Layout`, `Event`, `EventDecode`, `DashIds`, `Spool`, `Delivery`, `HttpReplies` |
| process lifecycle | `Lifecycle` |
| LLM budget | `Budget`, `BudgetHistory` |
| CVE join | `ColonKeys`, `CveJoin`, `CveHistory` |
| pack cache | `PackCache` |
| eBPF rule tables | `RuleTables`, `DenySyscall`, `DropEgress` |
| correlation, hashing | `Correlate`, `StableHash` |

How the outside world enters:

- The wall clock is a function from reading number to nanoseconds; hash-map iteration
  order is an arbitrary sequence; the file system says of each write whether it was
  done, left undone or torn; the server is a function from request number to reply.
- Integer widths are explicit: saturating and wrapping counters, truncating division,
  16-, 32- and 64-bit ranges. `usize` is 64 bits.
- Strings are sequences of characters, and bytes where the source hashes them.
  `float64` is `real`; a printed `f32` is an arbitrary JSON number token.
- Each handler and each locked method is one atomic step; publishing succeeds.

What turned out not to hold, each with a lemma:

- A process leaf that lists the empty parent name is not monotone
  (`PackMonotone.LateParentIsNotMonotone`); exactly when it is:
  `PackMonotone.LeafMonotoneIff`, and `PackMonotone.LeafMonotoneOnTreesIff` for batches
  without parent cycles.
- A pack update is safe to interrupt only if the active slot is unloadable or verified;
  two interruptions in a row can lose both packs
  (`PackCache.UpdateSurvivesIff`, `PackCache.TwoInterruptionsCanLoseBoth`). Over whole
  runs, exactly the stops that leave new bytes beside old metadata put a pack at risk
  (`PackCache.RunsSurviveIff`).
- `add_deny_rule` keeps the two maps inverse only if neither key belongs to another rule
  (`RuleTables.AddKeepsInverseIff`); with fresh keys its roll-back is never reached.
- Lifecycle events do not replay over a whole run: an empty persisted state counts as a
  missing one, so the snapshot after an empty one is seeded silently
  (`Lifecycle.ReseedingIsSilent`); exactly when they do: `Lifecycle.WholeRunReplaysIff`.
- `case_insensitive: false` does not make substring tests case-sensitive
  (`PackCase.UpperCaseNeedleNeverMatches`); exactly when it does:
  `PackCase.NeedleCaseIff`, `PackCase.CaseFlagHonouredIff`.
- The CVE join is not the batch join for every input: host and package are joined with a
  colon, so that two packages can share a cache entry and a record is lost
  (`CveHistory.CollidingPackagesLose`); exactly when it is:
  `CveHistory.IncrementalIsBatchIff`. Prices share keys in the same way
  (`BudgetHistory.SettingTouchesIff`).

## Model

| member | source | states |
|---|---|---|
| PackGuarantees.EvaluatorRefinesMeaning | agents/linux-agent/src/dynamic_pack/eval.rs:204-335 | Whenever the budgeted loop completes, its matches are exactly the rules, among the first `max_rules` in stable priority order, whose clause is true under for-all / at-least / exists semantics; every match carries only sourced hints. |
| PackLoop.EvaluatePack | agents/linux-agent/src/dynamic_pack/eval.rs:204-252 | For every pack, batch, iteration order and clock: Ok if and only if the pack is readable and every pass fits its limits, and then the result is the list of matches of the selected rules; an unreadable pack is refused for its limits first, then for its rules. |
| PackLoop.EvaluateRules | agents/linux-agent/src/dynamic_pack/eval.rs:214-252 | The priority-ordered rule loop stops at `max_rules`, succeeds exactly when all its passes fit, and returns the matches in order. |
| PackLoop.EvaluateRule | agents/linux-agent/src/dynamic_pack/eval.rs:233-250 | One rule runs on fresh per-rule counters; it answers exactly when its run fits, and charges exactly that run's clock readings. |
| PackEval.EvalClause | agents/linux-agent/src/dynamic_pack/eval.rs:255-288 | A budgeted clause returns the unbudgeted run's verdict, hint and charges when these fit the limits, and otherwise an error that names a budget the run exceeds or the malformed clause it meets. |
| PackEval.EvalAllOf | agents/linux-agent/src/dynamic_pack/eval.rs:290-335 | A conjunction, stopping at the first false child: same conformance, hints merged only while all children are true. |
| PackEval.EvalAnyOf | agents/linux-agent/src/dynamic_pack/eval.rs:290-335 | A counting group runs all children; verdict by the number that matched, hints from matched children only. |
| PackEval.EvalProcessLeaf | agents/linux-agent/src/dynamic_pack/eval.rs:337-362 | First process in iteration order that passes all five tests, with its guid as hint and the comparisons of every process visited charged. |
| PackEval.EvalDnsLeaf | agents/linux-agent/src/dynamic_pack/eval.rs:422-441 | A DNS leaf without a list is false for free; otherwise the first query that contains a needle. |
| PackEval.EvalFlowLeaf | agents/linux-agent/src/dynamic_pack/eval.rs:443-492 | `has_any_flow` takes the first flow for free; otherwise the first flow that passes port and host tests supplies the hint. |
| PackEval.MatchProcess | agents/linux-agent/src/dynamic_pack/eval.rs:364-420 | The five process tests in order, short-circuiting, each charging what it tried. |
| PackEval.SubstringAny | agents/linux-agent/src/dynamic_pack/eval.rs:550-571 | One comparison charged per string needle up to the first hit or the budget's end; needles are lower-cased whatever the leaf says. |
| PackEval.ContainsStringAny | agents/linux-agent/src/dynamic_pack/eval.rs:573-594 | One comparison charged per listed name up to the first equal one or the budget's end. |
| PackEval.LimitState.BumpStr | agents/linux-agent/src/dynamic_pack/eval.rs:170-176 | The saturating comparison counter and its limit test. |
| PackEval.LimitState.BumpClause | agents/linux-agent/src/dynamic_pack/eval.rs:178-184 | The saturating clause counter and its limit test. |
| PackTheorems.RunDecidesHolds | agents/linux-agent/src/dynamic_pack/eval.rs:255-335 | A run without a malformed clause answers the declarative truth of the clause, for every hash-map iteration order. |
| PackTheorems.WellFormedRuns | agents/linux-agent/src/dynamic_pack/eval.rs:255-335 | A well-formed clause never meets a malformed-clause error. |
| PackTheorems.HintsAreSound | agents/linux-agent/src/dynamic_pack/eval.rs:290-362 | Every hint of a matched clause comes from an observation that satisfies a leaf reached through satisfied clauses only, so an unsatisfied `any_of` contributes nothing. |
| PackGroups.AllOfReturns | agents/linux-agent/src/dynamic_pack/eval.rs:48-55 | An `all_of`, told from its children's own runs: true exactly when all are, charged for those up to the first that is not, with the process of the first child that has one and the flow of the first child that has one, and no hint unless true. |
| PackGroups.AnyOfReturns | agents/linux-agent/src/dynamic_pack/eval.rs:48-55 | An `any_of` is charged for all its children up to a malformed one, counts the true ones, and has the process and the flow of the first true children that have one. |
| PackGroups.ClauseReturns | agents/linux-agent/src/dynamic_pack/eval.rs:255-335 | A group's clause has its group's hint and string charge, one clause and one level more, and for an `any_of` the count is compared with the threshold. |
| PackGroups.ProcessLeafReturns | agents/linux-agent/src/dynamic_pack/eval.rs:337-362 | A process leaf's hint is the guid of the first process in iteration order that satisfies the leaf's meaning, and there is none exactly when no process does. |
| PackGroups.FlowLeafReturns | agents/linux-agent/src/dynamic_pack/eval.rs:443-492 | A flow leaf's hint names the id and the process, where nonempty, of the first flow that satisfies the leaf's meaning, and there is none exactly when no flow does. |
| PackGroups.ListCharges | agents/linux-agent/src/dynamic_pack/eval.rs:550-594 | A list is charged one comparison for each string entry up to and including the first hit. |
| PackGroups.ChecksCharge | agents/linux-agent/src/dynamic_pack/eval.rs:364-420 | A chain of tests passes when all do and is charged for those up to the first that fails. |
| PackReads.MalformedIff | agents/linux-agent/src/dynamic_pack/eval.rs:255-306 | A group is malformed exactly when its list is missing or its operator is neither of the two, a leaf exactly when it is not an object; the two reserved leaves are never true; an object with none of the keys is malformed. |
| PackReads.LaterKeysDoNotMatter | agents/linux-agent/src/dynamic_pack/eval.rs:255-288 | The first of the clause keys decides: a document means what it does without the keys tried later. |
| PackReads.ThresholdIs | agents/linux-agent/src/dynamic_pack/eval.rs:290-335 | An `any_of` document is true exactly when at least `min_match` of its children are; a missing or zero `min_match` asks for one. |
| PackReads.EveryChildIsAllOf | agents/linux-agent/src/dynamic_pack/eval.rs:290-335 | With as many matches asked for as there are children, `any_of` is `all_of`; with more it is never true; the two differ on no children. |
| PackReads.ProcessDocHolds | agents/linux-agent/src/dynamic_pack/eval.rs:364-420 | A process document with one list is true exactly when some process has the field which that list is about, the parent's name included, equal to or mentioning an entry, letter case aside. |
| PackReads.DnsDocHolds | agents/linux-agent/src/dynamic_pack/eval.rs:422-441 | A DNS document is true exactly when some query mentions one of its texts, letter case aside. |
| PackReads.FlowDocsHold | agents/linux-agent/src/dynamic_pack/eval.rs:494-526 | A port document is true exactly when some flow goes to a listed port, numbers being narrowed to 16 bits; a host document when some flow's host mentions a text; the any-flow flag when there is a flow. |
| PackReads.OtherFlagIsNone | agents/linux-agent/src/dynamic_pack/eval.rs:443-475 | Only the value true sets `has_any_flow`; any other stands for none. |
| PackReads.OtherCaseIsNone | agents/linux-agent/src/dynamic_pack/eval.rs:337-362 | Only the value false asks for letter case; any other stands for none. |
| PackBounds.RunBounded | agents/linux-agent/src/dynamic_pack/eval.rs:255-594 | Every run stays within the clause's static cost (needles times observations, summed over leaves), its node count and its height. |
| PackMonotone.LanguageIsMonotone | agents/linux-agent/src/dynamic_pack/eval.rs:290-526 | Adding DNS, flows or processes never turns a true clause false, through any nesting, when no known process gains its parent or when every process leaf meets the exact condition of the next two rows. |
| PackMonotone.LeafMonotoneIff | agents/linux-agent/src/dynamic_pack/eval.rs:337-420 | Over all batches, no extension makes a process leaf false if and only if its parent list lacks the empty string or no process can pass its own tests. |
| PackMonotone.LeafMonotoneOnTreesIff | agents/linux-agent/src/dynamic_pack/eval.rs:337-420 | Over batches without parent cycles, no extension makes a process leaf false if and only if its parent list lacks the empty string, or no process can pass its own tests, or every process that fails them has a name listed as a parent (then some ancestor passes instead). |
| PackMonotone.LateParentIsNotMonotone | agents/linux-agent/src/dynamic_pack/eval.rs:364-397 | A real failure: a leaf for `bash` with the empty string as parent name matches a `bash` whose parent is unknown, and stops matching once that parent, a root process `systemd`, is observed. |
| PackCase.UpperCaseNeedleNeverMatches | agents/linux-agent/src/dynamic_pack/eval.rs:399-417 | With `case_insensitive: false` the subject A does not contain the needle A: needles are lower-cased anyway. |
| PackCase.NeedleCaseIff | agents/linux-agent/src/dynamic_pack/eval.rs:550-571 | A needle is tested as written, whatever the subject, if and only if it has no upper-case ASCII letter. |
| PackCase.LettersLowered | agents/linux-agent/src/dynamic_pack/eval.rs:399-417 | Lower-casing takes each of the 26 letters to its small form and leaves every other character. |
| PackCase.CaseFlagHonouredIff | agents/linux-agent/src/dynamic_pack/eval.rs:399-417 | A substring list with the flag false is tested as written, whatever the subject, if and only if every needle contains a listed needle without upper-case letters. |
| PackCase.RedundantNeedleIsHarmless | agents/linux-agent/src/dynamic_pack/eval.rs:550-571 | An upper-case needle beside a lower-case one that it contains does no harm, so that condition is about the list and not about each needle. |
| PackCase.LeafIsCaseSensitive | agents/linux-agent/src/dynamic_pack/eval.rs:364-420 | With the flag false and that condition on its three substring lists, a process leaf is case-sensitive throughout. |
| PackLoop.SortIsStable | agents/linux-agent/src/dynamic_pack/eval.rs:214-225 | The evaluation order is by priority, ties in pack order, and misses no rule. |
| PackReads.PriorityReads | agents/linux-agent/src/dynamic_pack/eval.rs:214-225 | A written priority is the one that counts, and a rule without one stands where it would with 1,000,000. |
| PackReads.LimitsReadBack | agents/linux-agent/src/dynamic_pack/eval.rs:134-168 | Each of the five keys sets its own limit. |
| PackReads.LimitsReadIff | agents/linux-agent/src/dynamic_pack/eval.rs:134-168 | Limits are read exactly when all five keys hold unsigned numbers; otherwise the error names the first that does not. |
| PackReads.CompletedInTime | agents/linux-agent/src/dynamic_pack/eval.rs:186-192 | Every clock reading of a completed evaluation is within the wall limit, milliseconds against nanoseconds. |
| PackReads.PlainPassIff | agents/linux-agent/src/dynamic_pack/eval.rs:186-192 | A pass without a clause to evaluate takes one clock reading and fits exactly when that is within the wall limit. |
| PackGuarantees.SelectedAreFirst | agents/linux-agent/src/dynamic_pack/eval.rs:214-232 | The rules evaluated are in order and every rule left out comes after all of them. |
| PackGuarantees.OrderDoesNotMatter | agents/linux-agent/src/dynamic_pack/eval.rs:337-362 | Any two iteration orders that both complete match the same rules, whatever their clocks. |
| PackGuarantees.EnoughBudgetNeverFails | agents/linux-agent/src/dynamic_pack/eval.rs:120-192 | If every selected rule is well formed with height, size and static cost within the limits, and the clock is in time at each of the readings that the rules' sizes allow, evaluation cannot fail. |
| PackGuarantees.ReadingsBounded | agents/linux-agent/src/dynamic_pack/eval.rs:186-192 | The clock readings taken before any pass of the loop never exceed one per pass and one per clause node of the rules before it. |
| PackGuarantees.RaisingLimitsKeepsAnswers | agents/linux-agent/src/dynamic_pack/eval.rs:120-192 | Raising per-rule limits never changes a completed answer or its hints under the same order and clock. |
| PackBatch.BuildBatch | agents/linux-agent/src/dynamic_pack/eval.rs:59-118 | The batch holds each named process as its last start left it, and every named query and every flow in event order. |
| PackBatch.BatchIsUnique | agents/linux-agent/src/dynamic_pack/eval.rs:59-118 | The specification determines the batch: two batches of the same events are equal. |
| PackBatch.LastStartIsLast | agents/linux-agent/src/dynamic_pack/eval.rs:63-89 | The observation kept for a guid is that of some start event after which no other start of that guid occurs; none is kept exactly when no such event exists. |
| PackBatch.ProcessesShowLastStarts | agents/linux-agent/src/dynamic_pack/eval.rs:63-89 | A guid is in the batch exactly when an event starts it, and then with the name, command line, path and parent of its last start. |
| PackBatch.FlowsShowEvents | agents/linux-agent/src/dynamic_pack/eval.rs:98-114 | The flows are the flow events', one for one and in order, with their id, process, port and host. |
| PackBatch.QueriesShowEvents | agents/linux-agent/src/dynamic_pack/eval.rs:90-97 | The queries are those of the DNS events that name one, one for one and in order. |
| PackBatch.SpoolRebuildsBatch | agents/linux-agent/src/dynamic_pack/eval.rs:59-118 | The events read back from the spool have exactly the batches of the events that were spooled: what printing loses the evaluator never looks at. |
| Calendar.CivilFromDays | agents/linux-agent/src/main.rs:246-261 | The truncating-division arithmetic equals the floor-division closed form for every day number whose intermediate values fit 64 bits, negatives included, and none of them overflows. |
| Calendar.CivilCounts | agents/linux-agent/src/main.rs:246-261 | The computed date exists in the Gregorian calendar, and counting days year by year and month by month to it gives back the day number, for every integer. |
| Calendar.CivilSteps | agents/linux-agent/src/main.rs:246-261 | Day 0 is 1970-01-01 and day n+1 is the calendar successor of day n. |
| Calendar.CivilInverts | agents/linux-agent/src/main.rs:246-261 | The formula recovers every existing date from its day count. |
| Timestamp.Rfc3339Utc | agents/linux-agent/src/main.rs:230-244 | The printer, by the 64-bit calendar arithmetic, gives the stamp that the next two rows are about for every 64-bit second count, and an error before the epoch. |
| Timestamp.StampRoundTrip | agents/linux-agent/src/main.rs:230-261 | For every second from the epoch to the end of year 9999, a strict reader of the form of section 5.6 of RFC 3339 gets back the same second. |
| Timestamp.StampForm | agents/linux-agent/src/main.rs:230-244 | The stamp has 20 characters: year, month and day of the calendar date, T, hour, minute and second of the day, Z, each number in its own columns. |
| Timestamp.StampsSort | agents/linux-agent/src/main.rs:230-244 | In that range, lexicographic order of printed stamps is time order (section 5.1 of RFC 3339). |
| Timestamp.FourDigitYearIs | agents/linux-agent/src/main.rs:230-244 | The range is exactly the seconds whose year is 0 to 9999. |
| Json.EscapeJson | agents/linux-agent/src/event.rs:445-459 | The pushing loop computes the character-by-character escape. |
| Json.EscapeLeavesIff | agents/linux-agent/src/event.rs:445-459 | A character is printed as itself exactly when it is neither a quote, a backslash nor a control character. |
| Json.StringsReadBack | agents/linux-agent/src/event.rs:445-459 | A reader written from section 7 of RFC 8259 (all escapes, surrogate pairs, no raw control characters) run on escaped text, quote and any suffix returns exactly the string and the suffix. |
| Json.ValuesReadBack | agents/linux-agent/src/event.rs:249-527 | Compact printing of any JSON value is invertible and self-delimiting before any text that does not extend a number. |
| Json.ObjectsReadBack | agents/linux-agent/src/event.rs:429-442 | An object's text is self-delimiting before any text at all. |
| Json.DigitsAreNumber | agents/linux-agent/src/event.rs:468-487 | Decimal digits of any unsigned value are a number token of section 6 of RFC 8259. |
| Layout.CellPrints | agents/linux-agent/src/event.rs:461-527 | The hand-written option, array and nested printers produce exactly the compact print of the document they stand for. |
| EventDecode.EventsReadBack | agents/linux-agent/src/event.rs:249-442 | Reading any event's text followed by anything gives its document and the anything; looking members up by the names a consumer knows recovers every envelope and payload field of all eight payloads, with non-finite floats as 0 or absent. |
| EventDecode.KeysAreSchema | agents/linux-agent/src/event.rs:249-442 | Each payload's format string has exactly the keys, in order, of the consumer's schema. |
| EventDecode.KeysAreDistinct | agents/linux-agent/src/event.rs:249-442 | No format string has a key twice. |
| EventDecode.TextDeterminesEvent | agents/linux-agent/src/event.rs:249-442 | No event's text is a proper prefix of another's, and equal texts come from events equal up to non-finite floats. |
| Event.EventIsOneLine | agents/linux-agent/src/event.rs:249-442 | No control character, hence no newline, occurs in an event's text. |
| Event.EventSequence.New | agents/linux-agent/src/event.rs:221-246 | Draws the next value of the wrapping 64-bit counter and builds the envelope; the events made so far are the run of the calls so far. |
| Event.EventIdIsInjective | agents/linux-agent/src/event.rs:227-232 | An event id determines agent id, time and sequence number even when agent ids contain dashes and digits. |
| Event.EventIdReads | agents/linux-agent/src/event.rs:227-232 | Taking an id apart at its last two dashes gives back the sequence number, the time and the agent id. |
| Event.EventIdsAreUnique | agents/linux-agent/src/event.rs:221-246 | Among any 2^64 consecutive events of one process no two share an id, whatever configurations and clock readings they were built from. |
| Spool.JsonlSpool.Append | agents/linux-agent/src/transport.rs:25-44 | Appends the event's text and a newline, or whatever prefix the file system kept, and reports which. |
| Spool.JsonlSpool.AppendAll | agents/linux-agent/src/main.rs:104-110 | Stores every line, or the lines before the first failed append and the kept part of the failed one. |
| Spool.SpoolRecoversEvents | agents/linux-agent/src/transport.rs:25-44 | Splitting the file on newlines gives each appended text in order, then the pieces of whatever follows, and each of those lines decodes to its event. |
| Spool.TornLineIsDetected | agents/linux-agent/src/transport.rs:41-43 | No cut-off line ever decodes as an event. |
| Spool.MergedLineIsDetected | agents/linux-agent/src/transport.rs:41-43 | A cut-off event with the next event's text run into it, wherever it was cut, is not a document. |
| Spool.TornAppendIsLocal | agents/linux-agent/src/transport.rs:41-43 | After a torn append, only the next appended event shares its line: all lines before and after are intact. |
| Spool.TornSpoolYieldsOnlyAppended | agents/linux-agent/src/transport.rs:41-43 | Reading a torn spool gives exactly the events before the torn one and those after the one it ran into, in order. |
| JsonTorn.CutValue | agents/linux-agent/src/event.rs:249-442 | Whatever value is cut and wherever, at the end of the text or with an object's text run into it, the reader ends with nothing or stuck before text that continues no array or object; a cut array or object gives nothing. |
| Delivery.BodiesAreTheSpool | agents/linux-agent/src/transport.rs:81-88 | For every chunk size the request bodies concatenate to exactly the spooled text. |
| Delivery.ChunksAreFull | agents/linux-agent/src/transport.rs:81-88 | No chunk is empty or too long, and only the last may be short. |
| Delivery.HttpEndpoint.PostBodyOnce | agents/linux-agent/src/transport.rs:155-193 | One request; the outcome is the classification of the server's reply: a 2xx status line acknowledges, 4xx is final, everything else including I/O failure is retryable. What the spool held then is recorded. |
| HttpReplies.CodeDecides | agents/linux-agent/src/transport.rs:155-193 | For both HTTP versions, every code from 100 to 999, every reason and whatever follows: 200-299 acknowledge, 400-499 are final, all others may be retried. |
| HttpReplies.OtherRepliesAreRetryable | agents/linux-agent/src/transport.rs:155-193 | A failed connection, and a reply that starts with neither HTTP version, may be retried. |
| HttpReplies.AtMostThreeTries | agents/linux-agent/src/transport.rs:129-150 | A body is tried at most three times, every try but the last met a retryable reply, and a last retryable one is the third and fails. |
| Delivery.HttpEndpoint.PostBody | agents/linux-agent/src/transport.rs:129-150 | Between one and three attempts for the body, every one but the last retryable; success exactly when the last was acknowledged; giving up on a retryable answer only after three. |
| Delivery.HttpEndpoint.PostEventsChunked | agents/linux-agent/src/transport.rs:73-90 | Nothing is sent for no events or a zero chunk size (the latter an error); otherwise one group of attempts per chunk, in order, up to the first that fails. |
| Delivery.JoinLines | agents/linux-agent/src/transport.rs:82-86 | The body loop builds the framed text of its chunk. |
| Delivery.AcknowledgedInOrder | agents/linux-agent/src/transport.rs:73-90 | Against any server: success means the acknowledged bodies are all chunks once and in order; failure means they are a proper prefix. |
| Delivery.NothingAfterRejection | agents/linux-agent/src/transport.rs:129-150 | An attempt answered with 4xx is the last one ever sent. |
| Delivery.AcknowledgedText | agents/linux-agent/src/transport.rs:73-90 | The acknowledged text is a prefix of the spooled text, and all of it exactly on success. |
| Delivery.EmitEvents | agents/linux-agent/src/main.rs:104-115 | Every request that is sent is sent with all of this cycle's events on disk; a failed append sends nothing, and without a backend nothing is sent. |
| Lifecycle.LifecycleCollector.Collect | agents/windows-agent/src/process_lifecycle.rs:163-224 | One cycle: the new persisted state, the status event, and the started and ended events against the old state; a failed store reports an error and keeps the old state. |
| Lifecycle.CollectStarted | agents/windows-agent/src/process_lifecycle.rs:179-183 | Started events in ascending key order for keys absent from the persisted state. |
| Lifecycle.CollectEnded | agents/windows-agent/src/process_lifecycle.rs:185-204 | Ended events in ascending key order for keys absent from the snapshot, with saturating durations. |
| Lifecycle.MergePersistedFirstSeen | agents/windows-agent/src/process_lifecycle.rs:226-248 | Keeps the first-seen time of keys still present and stamps the others. |
| Lifecycle.CycleReplays | agents/windows-agent/src/process_lifecycle.rs:179-204 | Folding one diff's events over the persisted keys gives the snapshot's keys, each guid alternating. |
| Lifecycle.EventsReplayToSnapshot | agents/windows-agent/src/process_lifecycle.rs:163-224 | Over every run with failed stores, lost state and re-seeding anywhere: folding the events since the last seeding over the seeded set gives the current key set, and each guid's events alternate. |
| Lifecycle.WholeRunReplaysIff | agents/windows-agent/src/process_lifecycle.rs:163-224 | With the state file never lost, folding all events ever emitted over the first seeded set gives the current key set if and only if no current guid has been present in every snapshot since a later seeding. |
| Lifecycle.ReseedingIsSilent | agents/windows-agent/src/process_lifecycle.rs:165-176 | After the snapshots {a}, none, {b} the start of b is never sent: an empty persisted state counts as a missing one. |
| Lifecycle.RunIsTracked | agents/windows-agent/src/process_lifecycle.rs:163-224 | Over every run, lost state included: a guid that came or went since the last seeding is believed right by a consumer of all events, and the others as before that seeding. |
| Lifecycle.DurationsAreExact | agents/windows-agent/src/process_lifecycle.rs:185-248 | Every ended event's duration is the saturating difference from the first cycle of that guid's current unbroken presence. |
| Lifecycle.StartsAreExact | agents/windows-agent/src/process_lifecycle.rs:179-183 | Over every run, a started event is of a process that this snapshot holds and the last one did not, and shows it. |
| Lifecycle.AscendingSorts | agents/windows-agent/src/process_lifecycle.rs:179-204 | The order of the events lists every key once, in ascending order. |
| Budget.BudgetManager.CheckBudget | backend/common/agents/budget.go:148-169 | Accepts or rejects by both limits on the current windows, records exactly the accepted cost and count, and leaves the counters unchanged on rejection. |
| Budget.BudgetManager.RunCleanup | backend/common/agents/budget.go:264-289 | Removes exactly the labels that sort before their cut-offs. |
| Budget.BudgetManager.SetTokenCost | backend/common/agents/budget.go:309-317 | Replaces one price and touches no counter. |
| Budget.BudgetManager.CheckCostBudget | backend/common/agents/budget.go:185-204 | Allowed exactly when the cost is zero or the hour's total with it stays within the maximum. |
| Budget.CleanupIsInvisible | backend/common/agents/budget.go:264-289 | For every well-timed run of requests, price changes and cleanups, the verdicts equal those of the run with the cleanups left out. |
| Budget.BudgetIsSafe | backend/common/agents/budget.go:148-244 | Over every well-timed run: positive costs accepted under each hour label sum to at most the maximum, accepted requests under each minute label are within the RPM limit, and every retained counter equals its history. |
| Budget.FreshManagerAccounts | backend/common/agents/budget.go:54-77 | A new manager with a nonnegative maximum satisfies the invariant that `BudgetIsSafe` starts from. |
| Budget.ClockGivesWellTimed | backend/common/agents/budget.go:247-276 | Labels printed from a clock that never goes back form a well-timed run. |
| BudgetHistory.VerdictByHistory | backend/common/agents/budget.go:148-204 | Over every well-timed run a request is rejected for rate exactly when its minute's accepted requests reach the limit, and otherwise for budget exactly when its cost is nonzero and exceeds the maximum on top of the costs accepted in its hour. |
| BudgetHistory.CostIsLastSet | backend/common/agents/budget.go:207-223 | Over every run, 1000 input tokens cost exactly the input price that was last set for the pair, and 1000 output tokens the output price. |
| BudgetHistory.CostAdds | backend/common/agents/budget.go:207-223 | The cost is additive in both token counts. |
| BudgetHistory.UnknownCostsDefault | backend/common/agents/budget.go:207-223 | A pair that never had a price costs 0.01 and 0.02 per thousand tokens. |
| BudgetHistory.ChargeIsLastSet | backend/common/agents/budget.go:226-244 | A request after any run costs its token counts times the prices last set for its pair, per thousand, and an accepted one is charged that under its own hour and minute. |
| BudgetHistory.SettingTouchesIff | backend/common/agents/budget.go:309-317 | Setting one pair's price leaves the costs of another pair alone, whatever the price, if and only if they are different and neither is the other with its colon moved. |
| BudgetHistory.CleanupKeepsRecent | backend/common/agents/budget.go:264-289 | A cleanup at a time forgets exactly the labels of hours more than 24 hours and of minutes more than 60 minutes before it. |
| Windows.HourLabelsSort | backend/common/agents/budget.go:247-251 | Hour labels of years 0-9999 compare as strings exactly as hours do in time. |
| Windows.MinuteLabelsSort | backend/common/agents/budget.go:247-251 | Minute labels of years 0-9999 compare as strings exactly as minutes do in time. |
| CveJoin.EventConsumer.HandleCveUpdate | backend/etl-enrich/app/consumer.py:141-153 | Caches a CVE with a nonempty id and publishes one record per cached mapping's candidate that names it, in cache order. |
| CveJoin.EventConsumer.HandlePkgCveMapping | backend/etl-enrich/app/consumer.py:155-181 | Caches the mapping under host and package and publishes one record per candidate whose CVE is cached. |
| CveJoin.EventConsumer.ProcessPendingPkgCveMappings | backend/etl-enrich/app/consumer.py:183-198 | Visits cached mappings in insertion order and appends exactly the records of candidates naming the CVE. |
| CveJoin.LastRecordIsCurrent | backend/etl-enrich/app/consumer.py:141-222 | With any repetitions, the last record published for a currently joinable pair was built from the currently cached mapping and CVE. |
| CveHistory.SharedEntryIff | backend/etl-enrich/app/consumer.py:167-168 | Two mappings share a cache entry if and only if their host and package texts are equal or one pair is the other with its colon moved. |
| CveHistory.SameTextIff | backend/etl-enrich/app/consumer.py:167-168 | Two host or package names have the same text exactly when they are equal or one is missing and the other is the word None. |
| CveHistory.PlainEntryIff | backend/etl-enrich/app/consumer.py:167-168 | For hosts without a colon, if and only if host and package texts are equal. |
| CveHistory.HoldsIff | backend/etl-enrich/app/consumer.py:155-181 | A mapping is cached exactly when it arrived and none for the same package, or colliding with it, arrived since. |
| CveHistory.CachedCveIff | backend/etl-enrich/app/consumer.py:141-153 | A CVE document is cached exactly when it is the latest that arrived under its nonempty id. |
| CveHistory.PublishedExactly | backend/etl-enrich/app/consumer.py:141-222 | If no package and no CVE arrives twice, a record is published once per occurrence of its candidate when its mapping meets its CVE, and else never. |
| CveHistory.IncrementalIsBatchIff | backend/etl-enrich/app/consumer.py:141-222 | Under once-only arrival, each record is published exactly as often as the batch join of all that arrived contains it, if and only if no mapping is overwritten by a colliding one before a CVE that it names arrives. |
| CveHistory.IncrementalIsBatch | backend/etl-enrich/app/consumer.py:141-222 | For hosts without a colon and once-only arrival by host, package and CVE id, the published records are the batch join of the messages. |
| CveHistory.InterleavingsAgree | backend/etl-enrich/app/consumer.py:141-222 | Two interleavings of the same such messages publish the same multiset of records. |
| CveHistory.CollidingPackagesLose | backend/etl-enrich/app/consumer.py:167-168 | A real failure: host a with package b:c and host a:b with package c share an entry, and the record of the first is never published. |
| CveHistory.LastRecordIsLatest | backend/etl-enrich/app/consumer.py:141-222 | With any repetitions, the last record about a package and a CVE was built from the latest mapping and the latest document that arrived. |
| PackCache.CacheDir.PromoteAndWriteActive | agents/linux-agent/src/dynamic_pack/cache.rs:63-82 | Writes the four files in order until one fails; the disk is the prefix of writes done, with the failed one absent or torn. |
| PackCache.PromotionIsCrashSafe | agents/linux-agent/src/dynamic_pack/cache.rs:63-90 | After any prefix of the writes, the last possibly torn, a slot still holds the old pack and metadata complete; after all four, active is new and previous is old. |
| PackCache.RecoveryFindsOldOrNew | agents/linux-agent/src/dynamic_pack/pipeline.rs:215-236 | After any interrupted promotion of a verified active pack, the verifying reader finds the old or the new pack. |
| PackCache.UpdateSurvivesIff | agents/linux-agent/src/dynamic_pack/pipeline.rs:96-131 | An update may stop anywhere without losing every loadable verified pack if and only if the active slot does not load or loads as a verified pack. |
| PackCache.CleanAfterIff | agents/linux-agent/src/dynamic_pack/cache.rs:63-90 | From such a disk, exactly the stops that leave new or torn pack bytes beside the old metadata lead out of it. |
| PackCache.RunsSurviveIff | agents/linux-agent/src/dynamic_pack/cache.rs:63-90 | From such a disk with a verified pack, over every sequence of updates each stopped anywhere: a verified pack is safe throughout, however the next update ends, if and only if no update stopped in that window. |
| PackCache.TwoInterruptionsCanLoseBoth | agents/linux-agent/src/dynamic_pack/pipeline.rs:44-50 | Stopping between the two active writes and then after two writes of the next update leaves no verified pack: the update promotes an unverified mixed pair over the good one. |
| PackCache.PromotingUnverifiedLoses | agents/linux-agent/src/dynamic_pack/pipeline.rs:122-126 | An update that starts from a loadable but unverified active slot loses the good previous slot if it stops after two writes. |
| RuleTables.ExpiryIsExact | bpf-templates/deny_syscall_for_cgroup/src/deny_syscall_for_cgroup.bpf.c:61-67 | The wrapping 64-bit expiry test is exact for every 32-bit TTL when the rule was created no later than now; for a later creation time, exactly when it misfires. |
| RuleTables.AddKeepsInverseIff | bpf-templates/deny_syscall_for_cgroup/example/manager.c:51-88 | Adding a rule keeps the two maps mutually inverse if and only if the first map refuses it or neither key belongs to another rule. |
| RuleTables.FreshAddIsAllOrNothing | bpf-templates/deny_syscall_for_cgroup/example/manager.c:51-88 | With a fresh id and a cgroup without a rule, adding succeeds exactly below capacity 1024 and otherwise changes nothing: the roll-back is never reached. |
| RuleTables.RunsKeepInverse | bpf-templates/deny_syscall_for_cgroup/example/manager.c:51-175 | Every run of fresh adds, removals, active checks and hook expiries keeps the maps mutually inverse and within capacity. |
| RuleTables.SameSize | bpf-templates/deny_syscall_for_cgroup/example/manager.c:51-88 | Mutually inverse maps have the same number of entries. |
| RuleTables.InForceIsTheRule | bpf-templates/deny_syscall_for_cgroup/src/deny_syscall_for_cgroup.bpf.c:96-153 | On inverse maps a hook acts on exactly the unexpired rule written for its cgroup. |
| DenySyscall.DenyProgram.AddDenyRule | bpf-templates/deny_syscall_for_cgroup/example/manager.c:51-88 | Both map updates with roll-back, and the result code. |
| DenySyscall.DenyProgram.RemoveDenyRule | bpf-templates/deny_syscall_for_cgroup/example/manager.c:102-123 | Deletes both entries of a known rule; an unknown one is reported and nothing changes. |
| DenySyscall.DenyProgram.IsRuleActive | bpf-templates/deny_syscall_for_cgroup/example/manager.c:156-175 | An unexpired rule is active; an expired one is removed from both maps and reported inactive. |
| DenySyscall.DenyProgram.OnSyscall | bpf-templates/deny_syscall_for_cgroup/src/deny_syscall_for_cgroup.bpf.c:96-274 | The hooks: the verdict, the lazy removal of an expired rule, and the statistics. |
| DenySyscall.BlocksExactlyLiveRules | bpf-templates/deny_syscall_for_cgroup/src/deny_syscall_for_cgroup.bpf.c:96-274 | In every state reachable with fresh adds, a hook blocks if and only if the cgroup is nonzero and an unexpired rule for it names the hook's syscall. |
| DenySyscall.BlocksByHistory | bpf-templates/deny_syscall_for_cgroup/src/deny_syscall_for_cgroup.bpf.c:96-274 | With a clock that does not go back, a hook blocks if and only if the cgroup is nonzero and some rule was added for it, not removed since, is within its time to live in unbounded arithmetic, and names the hook's syscall. |
| RuleTables.LazyExpiryIsInvisible | bpf-templates/deny_syscall_for_cgroup/src/deny_syscall_for_cgroup.bpf.c:96-153 | Whether and when expired rules are deleted makes no difference to which rule is in force. |
| RuleTables.ActiveByHistory | bpf-templates/deny_syscall_for_cgroup/example/manager.c:156-175 | After every run of fresh adds with a clock that does not go back, a rule is reported active if and only if it was added, not removed since, and is within its time to live. |
| RuleTables.ExpiredIsForgotten | bpf-templates/deny_syscall_for_cgroup/src/deny_syscall_for_cgroup.bpf.c:96-153 | A hook call and an active check delete the rule they find from both maps, and nothing else, exactly when its time to live has run out. |
| DenySyscall.CountersAreExact | bpf-templates/deny_syscall_for_cgroup/src/deny_syscall_for_cgroup.bpf.c:96-274 | Over every run of hook calls the counters are, modulo 2^64, the calls from known cgroups, the blocked calls, and the blocked exec and ptrace calls, which add up to the blocked ones. |
| DropEgress.DropProgram.OnPacket | bpf-templates/drop_egress_by_cgroup/src/drop_egress_by_cgroup.bpf.c:66-167 | The bounds-checked packet walk decides as the packet specification does; expiry happens for IPv4 only; counters move with the verdict. |
| DropEgress.CountersAreExact | bpf-templates/drop_egress_by_cgroup/src/drop_egress_by_cgroup.bpf.c:66-167 | Over every packet run the three counters are the packets, the dropped packets and the dropped bytes, modulo 2^64. |
| DropEgress.BuiltPacketIsDroppedIff | bpf-templates/drop_egress_by_cgroup/src/drop_egress_by_cgroup.bpf.c:66-167 | An IPv4 frame built from its fields is dropped exactly when the rule in force for its cgroup names its destination address and, for TCP and UDP with a whole header, its destination port in network byte order; a cut-off TCP or UDP header never matches, and any other protocol is decided by the address. |
| Correlate.CorrelateDnsToFlowAttribution | agents/windows-agent/src/collector.rs:249-302 | The two in-place loops compute the pointwise specification of correlation on the whole array. |
| Correlate.EnrichFlowHostnames | agents/windows-agent/src/collector.rs:304-343 | The two in-place loops compute the pointwise specification of hostname enrichment on the whole array. |
| Correlate.CorrelationAgreesWithScan | agents/windows-agent/src/collector.rs:249-302 | An unattributed DNS event takes the process of the earliest most confident attributed flow to its first matching address answer, and stays as it is exactly when there is none. |
| Correlate.EnrichmentAgreesWithScan | agents/windows-agent/src/collector.rs:304-343 | A flow without a hostname takes the query of the earliest DNS event that resolves to its address, its other fields kept, and stays as it is exactly when there is none; all other events are unchanged. |
| Correlate.CorrelationTouchesOnly | agents/windows-agent/src/collector.rs:249-302 | Events other than unattributed DNS events are unchanged. |
| Correlate.BestOwnerIsBest | agents/windows-agent/src/collector.rs:255-275 | The indexed owner of an address is the earliest flow of maximum confidence among the attributed flows to it. |
| Correlate.CorrelationIsIdempotent | agents/windows-agent/src/collector.rs:249-302 | Correlating twice is correlating once. |
| Correlate.EnrichmentIsIdempotent | agents/windows-agent/src/collector.rs:304-343 | Enriching twice is enriching once. |
| Correlate.PassesCommute | agents/windows-agent/src/collector.rs:249-343 | The two passes give the same batch in either order. |
| StableHash.ComputeHash | agents/linux-agent/src/detection.rs:514-521 | The xor-then-multiply loop computes the 64-bit wrapping hash. |
| StableHash.OneDifferenceSeparates | agents/linux-agent/src/detection.rs:514-521 | Equal-length byte strings that differ in exactly one position hash differently. |
| StableHash.SuffixKeepsApart | agents/linux-agent/src/detection.rs:514-521 | A common suffix never merges two different hash states. |
| StableHash.DetectionIdsDiffer | agents/linux-agent/src/detection.rs:504-521 | On one device and classification, process guids of one length that differ in one byte get different detection ids. |
| StableHash.DetectionIdReads | agents/linux-agent/src/detection.rs:504-521 | A detection id read from its last dash gives back the hash of the process guid. |
| StableHash.DeviceIdIs | agents/linux-agent/src/detection.rs:504-512 | Without a process the id hashes the word device. |
| StableHash.XorIsBitwise | agents/linux-agent/src/detection.rs:514-521 | The arithmetic exclusive-or adds each pair of bits modulo 2, for every bit position. |
| StableHash.HashSteps | agents/linux-agent/src/detection.rs:514-521 | The empty string hashes to the offset basis, and one more byte multiplies by 1099511628211 modulo 2^64. |

## Left out

- The console UI, SQL stores, NATS and HTTP plumbing, protobuf code and command-line mains: behaviour that lies in other systems.
- Signature verification, schema checks and pack download: a pack counts as verified when an arbitrary predicate says so; the digest function is collision-free by assumption (`PackCache.Sound`) and its text form is normalised.
- Failure to create a directory before a write is the same as that write not being done.
- Sockets, `ss`/`ps`/PowerShell collection and the parsing of their output: their results are inputs.
- `f32` rounding and printing, and NaN payloads: number tokens in `Event`, reals in `Budget` and `Correlate`.
- Error message texts: errors are told apart by kind, not by wording; `post_body`'s sleep between attempts and its last error text are not modelled.
- URL and authority parsing in `transport.rs`, and the actions heartbeat post: one-branch string helpers.
- The keys of the format strings are printed through the same quoting as values; all of them are lower-case words, which quoting leaves unchanged.
- `sort_by` is an insertion sort: only stability and order matter to its caller.
- asyncio interleavings inside one handler, failed publishes, and data races on `GetStats`.
- Local time zones and daylight saving: `Budget` assumes labels that do not go back; `Budget.ClockGivesWellTimed` proves it for a clock that does not.
- The default price table of `initializeDefaultCosts`, heuristic detection rules, vendor signatures and score constants: tables.
- `add_deny_rule_by_name`, rule listing, syscall names and cgroup lookup by task: the cgroup id is an input, 0 when it cannot be determined.
- Per-CPU statistics maps are one CPU's; the concurrent increments of several are not modelled.
- The XDP walk takes 20 bytes for the IPv4 header whatever its length field says, as the source does.
- The macOS agent and the Windows copies of the event and transport code: duplicates.
- The byte encoding of a process guid is an input of `stable_hash`.
- DropEgress.DropProgram.OnPacket: rules are written by a program that is not part of this model; runs of adds and removals are covered by `RuleTables` with an arbitrary payload.
