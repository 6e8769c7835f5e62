# rule-router: a verified model of its stateful core

rule-router evaluates rules against NATS messages, HTTP requests and schedules. This
project models the parts of it that hold state across messages, or where a fast form
stands in for a simple one, and proves what every run, every history or every input
keeps. Each module follows one component of the system:

| files | component |
|---|---|
| `Coalescer.dfy`, `CoalescerTheorems.dfy` | the trailing-throttle coalescer as a transition system with a clock, timer callbacks, a shutdown flush and a history |
| `Reload.dfy`, `ReloadTheorems.dfy`, `Bags.dfy` | KV hot reload: puts and deletes rewrite four derived views |
| `Dispatch.dfy`, `Rules.dfy` | one message over both transports against the reloaded rules |
| `Patterns.dfy`, `RuleIndex.dfy` | subject patterns, the compiled matcher, the rule index |
| `Streams.dfy`, `StreamChoice.dfy` | filter matching, pattern containment, choice of a stream |
| `Template.dfy` | the recursive template scanner |
| `Conditions.dfy`, `Json.dfy` | prepared and unprepared conditions, JSON paths, deep merge |
| `Paths.dfy` | brace-respecting paths, KV field specifications and their cache |
| `Throttle.dfy`, `Emissions.dfy` | leading throttle, rule numbering, throttle keys; throttled rules over any run of messages |
| `Outcomes.dfy`, `FanOut.dfy` | evaluation of the rules of one message: throttles, conditions, immediate/deferred split, forEach |
| `Delivery.dfy` | ack/nak/term and the HTTP retry loop |
| `Cron.dfy`, `CronMeaning.dfy` | the visual cron builder |
| `Text.dfy`, `Decimals.dfy`, `Ascending.dfy` | options, splitting and joining, decimal notation, increasing sequences |

`dafny verify dfyconfig.toml` checks the whole project.

Conventions. Clocks, the network, the JetStream client, comparison helpers and the
`@` fields are parameters (values or functions). Go's map iteration order is
arbitrary: loops over maps pick any remaining key, and results that depend on the
order are compared as multisets. Strings are sequences of characters where Go indexes
bytes; every character the code tests for is a single byte, and inputs are valid UTF-8
(`SplitPathRespectingBraces` re-encodes runes, so an invalid byte would come out as
U+FFFD). JSON numbers are opaque. JavaScript's `parseInt` is any conversion that is exact
up to 2^53 and gives something at least that large, or Infinity, above.

Where code and comments disagree, the code is followed:

- `>` matches zero or more tokens (`internal/rule/pattern.go:140`), although
  `internal/rule/path_matcher.go:12` says one or more.
- `*` rejects an empty token in the rule matcher (`internal/rule/pattern.go:208`) but
  not in the stream matcher (`internal/broker/stream_resolver.go:509`); the two have
  separate meanings here, `Patterns.Matches` and `Streams.Accepts`.
- `Outcome.All` promises evaluation order (`internal/rule/types.go:89-90`) but lists
  immediate actions first; `Outcomes.AllIsEvaluationOrderIff` says when the two agree.

Claims that do not hold of the code in general come with their exact condition:
`Streams.SubjectMatchesIffContained` (a `*` under a trigger's `>`),
`StreamChoice.ExactOutranksIffShort` (eleven tokens), `Conditionals.FastEqualsSlowIff`
(padded templates), `ReloadTheorems.ResyncUpToDateIff` (forgotten deletes and hidden
rejections), `Dispatch.KVModeExactlyOnce` (unserved subjects),
`Json.AssociativeIff` (an erasing overlay), `CronMeaning.RebuiltMeansTheSameIff`
(steps of 2^31 and more) and `Outcomes.AllIsEvaluationOrderIff`.

## Model

| member | source | states |
|---|---|---|
| `Coalescers.Coalescer.Submit` | internal/deferred/coalescer.go:88-121 | an empty batch is ignored, a stopped coalescer refuses, a pending key gets the new batch and keeps its timer, a new key opens a window due the batch's window after now |
| `Coalescers.Coalescer.Fire` | internal/deferred/coalescer.go:124-139 | a callback claims its key's entry and joins the wait group, unless the key is gone or the coalescer stopped |
| `Coalescers.Coalescer.BeginStop` | internal/deferred/coalescer.go:183-197 | the first Stop empties the map and hands every pending batch, once each, to the flush; a later Stop does nothing |
| `Coalescers.Coalescer.Execute` | internal/deferred/coalescer.go:144-168 | every action is attempted once in order, and each is counted as emitted or failed |
| `CoalescerTheorems.StepKeepsInv` | internal/deferred/coalescer.go:88-229 | the invariant on entries, timers, traces, windows and claims survives every atomic step |
| `CoalescerTheorems.OneCallbackPerPendingKey` | internal/deferred/coalescer.go:115-139 | in every reachable unstopped state, armed or waiting callbacks are exactly one per pending key, and each finds its own entry |
| `CoalescerTheorems.ExactlyOnePlace` | internal/deferred/coalescer.go:88-225 | every non-empty submitted batch is in exactly one of: pending, replaced by a later batch of its window, waiting for the flush, executed once, dropped once |
| `CoalescerTheorems.OneExecutionPerWindow` | internal/deferred/coalescer.go:105-138 | a window executes at most one batch, and it is the last one submitted in it |
| `CoalescerTheorems.DueEntryFires` | internal/deferred/coalescer.go:117-138 | once a window is over its callback can run, and running it executes that batch, for the first time, and nothing else |
| `CoalescerTheorems.WindowFacts` | internal/deferred/coalescer.go:105-118 | batches of one window share a key; a batch that joined a window is dropped only after the shutdown deadline |
| `CoalescerTheorems.DeadlineNeverMoves` | internal/deferred/coalescer.go:105-113 | while a key stays pending no step changes its timer |
| `CoalescerTheorems.LogIsSubmissions` | internal/deferred/coalescer.go:88-121 | the history of every run lists exactly its non-empty submissions with the time on the clock |
| `CoalescerTheorems.WindowIsItsFirstBatch` | internal/deferred/coalescer.go:115-118 | every window opened when its first batch was submitted and lasts for that batch's window |
| `CoalescerTheorems.PendingIsDue` | internal/deferred/coalescer.go:105-118 | a pending key is due that long after that submission, however often the batch was replaced |
| `CoalescerTheorems.ClaimsWaitTheWindow` | internal/deferred/coalescer.go:117-138 | no window closes before its first batch has been held for its window |
| `CoalescerTheorems.AtMostEightFlushing` | internal/deferred/coalescer.go:206-224 | the flush never runs more than eight executions at once |
| `CoalescerTheorems.ClaimSpacing` | internal/deferred/coalescer.go:115-139 | two window-close claims of one key are at least the window of the second one's first batch apart |
| `CoalescerTheorems.ReturnedMeansDone` | internal/deferred/coalescer.go:199-229 | when the first Stop has returned nothing is pending, queued or in flight, and every batch was replaced, executed once or dropped once |
| `CoalescerTheorems.StopAdvances` | internal/deferred/coalescer.go:199-228 | in every flushing state some step of the flush or of a running execution is possible, and it returns or leaves less to do |
| `CoalescerTheorems.StopReturns` | internal/deferred/coalescer.go:183-229 | from every flushing state a run of such steps ends with Stop returned |
| `CoalescerTheorems.NothingExecutesAfterReturn` | internal/deferred/coalescer.go:183-229 | no continuation of such a run executes anything |
| `Reload.PushRules` | internal/broker/rule_kv_manager.go:414-460 | in whatever key order, the processor's rules per subject, schedule rules and core rules are the projections of the current rules |
| `Reload.CollectSubjects` | internal/broker/rule_kv_manager.go:476-484 | exactly the trigger subjects of JetStream rules |
| `Reload.AnySchedule` | internal/broker/rule_kv_manager.go:463-470 | true iff some rule is scheduled |
| `Reload.AnyCore` | internal/broker/rule_kv_manager.go:488-495 | true iff some rule is served by core NATS |
| `Reload.Rebuild` | internal/broker/responder.go:64-120 | one core subscription per distinct core subject whose attempt does not fail, in the queue group of the subject's first rule; the failed subjects are exactly the core subjects whose attempt fails |
| `Reload.StartSubscriptions` | internal/broker/subscription.go:131-200 | the subscription map after starting the new subjects: existing ones stay, refused ones stay out, a failed iterator leaves an entry that consumes nothing |
| `Reload.RuleKVManager.HandleRulePut` | internal/broker/rule_kv_manager.go:282-360 | a rejected put changes nothing; an accepted one rewrites the key and all four views, removing no subscription |
| `Reload.RuleKVManager.HandleRuleDelete` | internal/broker/rule_kv_manager.go:363-408 | an unknown key changes nothing; otherwise the key goes, the views follow, and exactly the subjects no other key needs are unsubscribed |
| `ReloadTheorems.StepKeepsInv` | internal/broker/rule_kv_manager.go:282-408 | every event keeps all four views reconciled with the current rules, also where it skips a rebuild |
| `ReloadTheorems.EveryHistoryReconciles` | internal/broker/rule_kv_manager.go:248-408 | after every history of accepted and rejected puts, deletes and a responder close, the views equal their projections, and a needed subject is consumed exactly if its last start left a consumer |
| `ReloadTheorems.DeleteKeepsNeeded` | internal/broker/rule_kv_manager.go:378-405 | a delete never removes a subject that another key needs |
| `ReloadTheorems.PutStartsIff` | internal/broker/rule_kv_manager.go:342-356 | a put consumes a subject afterwards iff it was consumed before, or its key newly needs it, no entry is there and the start succeeds: an overwrite retries nothing |
| `ReloadTheorems.FailedStep` | internal/broker/rule_kv_manager.go:342-356 | the failed start of a subject that stays needed is repaired exactly by a put whose key newly needs it, with no entry there and a successful start |
| `ReloadTheorems.FailedUntilRestarted` | internal/broker/rule_kv_manager.go:282-408 | over any stretch of any history without such a put it stays unrepaired |
| `ReloadTheorems.OverwriteDoesNotRetry` | internal/broker/rule_kv_manager.go:343-345 | overwriting a key whose subject was refused, when a start would now succeed, leaves the subject needed and unserved |
| `ReloadTheorems.PutLeavesNoStaleIff` | internal/broker/rule_kv_manager.go:342-356 | from no stale subscriptions, a put leaves none iff every subscribed subject its key needed before is still needed |
| `ReloadTheorems.DeleteLeavesNoStale` | internal/broker/rule_kv_manager.go:378-405 | a delete never creates a stale subscription |
| `ReloadTheorems.CoreListedIffLastAttempt` | internal/broker/responder.go:64-120 | after every history, with the responder open, a core subject is listed iff the last attempt to subscribe it did not fail |
| `ReloadTheorems.StillbornStep` | internal/broker/subscription.go:174-192 | an entry whose iterator failed survives an event iff that event is no delete removing its subject |
| `ReloadTheorems.StillbornUntilRemoved` | internal/broker/subscription.go:174-210 | over any stretch of any history without such a delete it stays, so no put repairs it |
| `ReloadTheorems.ReplayIsLastOp` | internal/broker/rule_kv_manager.go:193-198 | after any events a key holds what its last accepted operation says |
| `ReloadTheorems.DeliveryOrderIrrelevant` | internal/broker/rule_kv_manager.go:193-198 | any delivery order ending in each key's last operation yields the same rules |
| `ReloadTheorems.ResyncUpToDateIff` | internal/broker/rule_kv_manager.go:193-198 | after an outage the redelivery gives the rules of an uninterrupted watcher iff no loaded key is missing from it and no key whose latest value is rejected hides a missed accepted change |
| `ReloadTheorems.RejectedHidesMissed` | internal/broker/rule_kv_manager.go:284-305 | a rejected value after a missed accepted one: the earlier rules stay although no key was forgotten, and a restart loses them |
| `ReloadTheorems.RejectedAloneIsHarmless` | internal/broker/rule_kv_manager.go:284-305 | a rejected value with nothing accepted before it in the outage leaves the rules up to date |
| `ReloadTheorems.ForgottenDeleteStays` | internal/broker/rule_kv_manager.go:193-198 | a delete marker compacted away during the outage leaves its rules behind |
| `ReloadTheorems.TraceIsReplay` | internal/broker/rule_kv_manager.go:282-408 | the current rules of a behaviour are its events replayed |
| `Dispatch.FilterNATSRules` | internal/rule/processor.go:490-511 | both the all-pass shortcut and the copy return the transport's rules in order |
| `Dispatch.RulesToEvaluate` | internal/rule/processor.go:588-604 | a delivery evaluates the transport's share of the rules filed under the trigger subject, and falls back to the file index only when none are filed |
| `Dispatch.DeliveriesShare` | internal/rule/processor.go:588-630 | summed over distinct subscriptions, a transport evaluates its rules on hit subjects once each, plus the fallbacks |
| `Dispatch.EvaluatedExactlyOnce` | internal/rule/processor.go:578-604 | whatever is subscribed: over both transports each KV rule whose trigger the message hits and whose subject is served is evaluated exactly once and no other KV rule is, with overlapping wildcards, shared subjects, stale subscriptions, failed starts and a closed responder |
| `Dispatch.ServedIff` | internal/broker/responder.go:64-120 | a loaded rule is served iff the last attempt to subscribe its subject succeeded and, for a core rule, the responder is open |
| `Dispatch.CoreServedIffLastAttempt` | internal/broker/responder.go:95-120 | so a loaded core rule is served iff the connection accepted its subject at the last rebuild |
| `Dispatch.TransportOf` | internal/rule/types.go:164-177 | rules with `reply` or mode `core` are served by core NATS, all others by JetStream |
| `Dispatch.KVModeExactlyOnce` | internal/rule/processor.go:588-630 | with an empty file index nothing else is evaluated, and all hit rules are evaluated exactly once iff all of them are served |
| `Dispatch.EveryHistoryDispatchesOnce` | internal/broker/rule_kv_manager.go:282-460 | both after every event history, for the rules those events leave |
| `Dispatch.DispatchedOnceAmidEvents` | internal/broker/rule_kv_manager.go:316-356 | both for messages delivered inside an event, when the processor is swapped and subscriptions are only partly removed, rebuilt or started |
| `Patterns.Compile` | internal/rule/pattern.go:123-154 | the compiled arrays, terminal flag and token bounds describe the tokens |
| `Patterns.NewPatternMatcher` | internal/rule/pattern.go:47-72 | succeeds iff the pattern is valid, and compiles iff it has a wildcard token |
| `Patterns.ValidPatternIff` | internal/rule/pattern.go:224-252 | valid patterns have no empty token, `*` only as a token of its own and `>` only as the last token |
| `Patterns.WildcardExamples` | internal/rule/pattern.go:179-221 | `*` takes exactly one token that is not empty, a final `>` any number, none included |
| `Patterns.WildcardTestsAgree` | internal/rule/pattern.go:255-269 | on valid patterns the character test and the token test for wildcards agree |
| `Patterns.RecursiveMeaning` | internal/rule/pattern.go:179-221 | the recursive matcher decides the declarative reading from every position |
| `Patterns.PrechecksAreRedundant` | internal/rule/pattern.go:157-176 | the min-token and length pre-checks never change the answer |
| `Patterns.MatchTokensMeaning` | internal/rule/pattern.go:103-120 | matching tokens decides the declarative reading, empty token lists included |
| `Patterns.MatchMeaning` | internal/rule/pattern.go:84-120 | for every valid pattern and subject the string and the token matcher agree with the declarative reading |
| `RuleIndex.Index.Add` | internal/rule/index.go:46-98 | a nil rule is ignored; the exact map and the pattern list stay the filing of the rules added so far, in order |
| `RuleIndex.Index.FindAllMatching` | internal/rule/index.go:102-143 | exact rules, then pattern rules in insertion order; as a multiset, exactly the selected rules |
| `RuleIndex.Index.FindAllMatchingTokenized` | internal/rule/index.go:148-190 | the lookup on pre-split tokens returns the same list |
| `RuleIndex.LookupIsSelection` | internal/rule/index.go:102-143 | the two parts of a lookup are together exactly the selected rules, none twice |
| `RuleIndex.SelectedMeansMatches` | internal/rule/index.go:46-98 | for a valid trigger selection is the declarative reading of its pattern |
| `Streams.MatchPattern` | internal/broker/stream_resolver.go:465-521 | the two loops decide filter acceptance as read token by token |
| `Streams.FilterExamples` | internal/broker/stream_resolver.go:465-521 | a filter's `*` takes exactly one token, the empty one too, its `>` any tail |
| `Streams.PatternCoveredBy` | internal/broker/stream_resolver.go:526-583 | the loops decide the positionwise cover relation |
| `Streams.CoversIffContained` | internal/broker/stream_resolver.go:526-583 | the check is true exactly when every token list the pattern accepts, the empty one included, is accepted by the filter |
| `Streams.RefutationRefutes` | internal/broker/stream_resolver.go:526-583 | when the check fails there is a concrete token list accepted by the pattern and refused by the filter |
| `Streams.CheckSubject` | internal/broker/stream_resolver.go:441-460 | the three-way dispatch between equality, filter matching and containment |
| `Streams.SubjectMatchesIffContained` | internal/broker/stream_resolver.go:441-460 | subject matching decides containment end to end exactly when no `*` of the filter sits under the trigger's final `>` |
| `Streams.StarUnderGreedyExample` | internal/broker/stream_resolver.go:448-450 | `a.>` is accepted for the filter `a.*` although most of its messages are not captured |
| `Streams.AcceptedTriggerIsServed` | internal/broker/stream_resolver.go:441-460 | outside that family an accepted trigger loses no message the rule matcher would select |
| `StreamChoice.CalculateSpecificity` | internal/broker/stream_resolver.go:412-437 | 1000 plus 10 per token for exact filters, else 100, 10 and 1 per token kind |
| `StreamChoice.TwoTokenScores` | internal/broker/stream_resolver.go:412-437 | two tokens score 1020 if exact, 110 with a `*` and 101 with a `>` |
| `StreamChoice.WildcardScoresBelow` | internal/broker/stream_resolver.go:412-437 | for concrete subjects of at most 11 tokens a matching wildcard filter scores below the exact one |
| `StreamChoice.ExactOutranksIffShort` | internal/broker/stream_resolver.go:412-437 | the exact filter outranks every matching wildcard filter iff the subject has at most 11 tokens |
| `StreamChoice.StrictWeakOrder` | internal/broker/stream_resolver.go:313-342 | the four-rule comparator is irreflexive and transitive, and ties are transitive |
| `StreamChoice.FirstOfAnySort` | internal/broker/stream_resolver.go:313-345 | whatever an unstable sort does, its first element is beaten by no match, and any two results are tied |
| `StreamChoice.CollectStream` | internal/broker/stream_resolver.go:242-292 | the matches of a stream: subjects, mirror filter and source filters that match, with their roles |
| `StreamChoice.FindStreamForSubject` | internal/broker/stream_resolver.go:229-371 | undiscovered and unmatched are told apart; otherwise the chosen stream has a match of the greatest specificity of all, in memory if any such is, then primary if any such is, then outside the system streams if any such is |
| `StreamChoice.LiteralFilterWins` | internal/broker/stream_resolver.go:313-345 | for a concrete subject of at most eleven tokens that some stream lists literally, the chosen filter is that subject |
| `StreamChoice.CandidateFacts` | internal/broker/stream_resolver.go:244-292 | a match carries its stream's name and storage, its filter's score and whether the name starts with `$` or `KV_` |
| `StreamChoice.CandidateExistsIff` | internal/broker/stream_resolver.go:244-300 | there is a match iff some subject, mirror filter or source filter of some stream matches |
| `Template.FindClosingBrace` | internal/rule/template.go:55-68 | the balancing brace, or the end if there is none |
| `Template.IsValidTemplateStructure` | internal/rule/template.go:145-179 | what counts as a variable rather than as text |
| `Template.ParseRecursive` | internal/rule/template.go:38-139 | the cursor loop with its recursion computes the rendering, and terminates |
| `Template.ExecuteIsRender` | internal/rule/template.go:28-34 | the shortcut for brace-free text is no special case |
| `Template.Compositional` | internal/rule/template.go:28-139 | rendering `a+b` is rendering `a` then `b`, for every `a` that closes its braces and every `b` |
| `Template.BalancedIsClosed` | internal/rule/template.go:53-68 | every brace-balanced text closes its braces |
| `Template.ContentBalanced` | internal/rule/template.go:70-85 | what is handed to the recursion is balanced |
| `Template.ReferenceRenders` | internal/rule/template.go:78-126 | a reference around balanced, valid content renders to that content's value |
| `Template.PlainReferenceIff` | internal/rule/template.go:145-205 | braces around brace-free text are a reference iff it is not empty and made of letters, digits and `_.:()=/-@,`; otherwise they are text |
| `Template.UnclosedRendersItself` | internal/rule/template.go:53-68 | text that closes no brace renders as it is |
| `Template.SubstitutedVerbatim` | internal/rule/template.go:78-126 | between any text that closes its braces and any other text, a reference's value is inserted as it is and never scanned, whatever braces it holds |
| `Template.NameValue` | internal/rule/template.go:89-122 | for a plain name that value is the resolver's answer |
| `Template.ElevenLevelsAreFine` | internal/rule/template.go:38-41 | templates nested at most eleven braces deep never hit the depth error |
| `Template.DepthErrorIff` | internal/rule/template.go:38-91 | the depth error occurs iff references holding braces nest deeper than the remaining depth |
| `Template.ExecuteFailsIff` | internal/rule/template.go:28-41 | so a whole rendering fails iff such references nest more than ten deep |
| `Template.NestedFailsFromTwelve` | internal/rule/template.go:38-41 | the bound is exact: nested variables fail iff there are twelve levels or more |
| `Json.TraversePath` | internal/rule/json_traversal.go:29-50 | the loop reads the path, failing on empty segments, missing keys, bad or out-of-range indexes and scalars |
| `Json.SegmentReads` | internal/rule/json_traversal.go:36-114 | a segment reads a key of an object or an element of an array; an empty segment, a non-number in an array and a scalar read nothing |
| `Json.IndexReads` | internal/rule/json_traversal.go:91-136 | the decimal n reads the n-th element from zero, minus n the n-th from the end, and nothing outside |
| `Json.FirstAndLast` | internal/rule/json_traversal.go:116-136 | `0` reads the first element and `-1` the last |
| `Json.ReadConcat` | internal/rule/json_traversal.go:29-50 | reading a path in two parts is reading it whole |
| `Json.DeepMerge` | internal/rule/processor.go:1459-1474 | in whatever key order, the loop with its recursion computes the merge |
| `Json.OverlayIdempotent` | internal/rule/processor.go:1459-1474 | applying the same overlay twice is applying it once |
| `Json.OverlayWins` | internal/rule/processor.go:1464-1472 | a path that reads a non-object from the overlay reads the same from the result |
| `Json.BaseShowsThrough` | internal/rule/processor.go:1461-1472 | where the overlay lacks a key, the result reads what the base reads if the base is made of objects down to there, and nothing otherwise |
| `Json.SharedObjectsMerge` | internal/rule/processor.go:1464-1470 | where both read objects through objects, the result reads their merge |
| `Json.AssociativeIff` | internal/rule/processor.go:1459-1474 | merging is associative exactly when the middle overlay erases nothing that the last one does not bring back |
| `Json.NotAssociativeExample` | internal/rule/processor.go:1459-1474 | three overlays whose merge depends on the grouping |
| `Conditionals.FastEqualsSlowIff` | internal/rule/condition_resolver.go:62-161 | the prepared and the unprepared resolver agree on a string in every context iff it is not a padded template |
| `Conditionals.PaddedTemplateExample` | internal/rule/condition_resolver.go:25-42 | a field written with a leading blank is a padded template |
| `Conditionals.PrepareConditions` | internal/rule/condition_resolver.go:112-122 | caches are computed for every condition, through groups and nested conditions, and nothing else changes |
| `Conditionals.PreparationPreservesMeaning` | internal/rule/condition_resolver.go:110-136 | a prepared condition tree without padded templates decides every message as the unprepared one does, through groups and array elements |
| `Conditionals.PaddedConditionExample` | internal/rule/condition_resolver.go:112-161 | a condition on a padded field that holds unprepared and fails prepared |
| `Conditionals.PreparationIdempotent` | internal/rule/condition_resolver.go:110-136 | preparing a prepared tree changes nothing |
| `Conditionals.Evaluate` | internal/rule/evaluator.go:37-50 | and/or groups mean all/some of their items and subgroups; an empty group holds, an unknown operator does not |
| `Conditionals.EvaluateAnd` | internal/rule/evaluator.go:52-66 | leaving the loops early does not change the conjunction |
| `Conditionals.EvaluateOr` | internal/rule/evaluator.go:68-82 | leaving the loops early does not change the disjunction |
| `Conditionals.EvaluateCondition` | internal/rule/evaluator.go:84-150 | existence operators, failures and nulls, array operators and comparisons, in the code's order |
| `Conditionals.PlainOperators` | internal/rule/evaluator.go:129-145 | each of the nine plain operators is the comparison helper on the two resolved sides |
| `Conditionals.NegatedOperators` | internal/rule/evaluator.go:138-143 | `not_contains` and `not_in` answer the opposite of `contains` and `in` |
| `Conditionals.OtherOperators` | internal/rule/evaluator.go:117-149 | an unknown operator, or a value that does not resolve, is never met |
| `Conditionals.WhatResolves` | internal/rule/condition_resolver.go:62-86 | a braced name is read from the message along its dots or asked of the system, anything else stands for itself |
| `Conditionals.WhatIsCached` | internal/rule/condition_resolver.go:142-161 | what preparation caches for a template |
| `Conditionals.EvaluateArrayCondition` | internal/rule/evaluator.go:154-242 | `any`, `all` and `none` are exists, non-empty-and-forall and not-exists over the elements, despite counting and early exits |
| `Conditionals.ElementsAreMessages` | internal/rule/processor.go:1181-1189 | an object element's paths are read in it, any other element is read under `@value` |
| `Paths.SplitPathRespectingBraces` | internal/rule/json_traversal.go:179-232 | succeeds iff braces balance and no depth-0 segment is empty, and returns the depth-0 segments |
| `Paths.SplitPathMeaning` | internal/rule/json_traversal.go:169-232 | a result is returned iff it consists of non-empty balanced segments without depth-0 dots that join back to the path |
| `Paths.ParseKVFieldMeaning` | internal/rule/kv_context.go:294-362 | the parser accepts exactly the written forms of a bucket, key and path, and returns them |
| `Paths.KVFieldExample` | internal/rule/kv_context.go:294-362 | `@kv.b.k:a.0` is bucket b, key k and path a, 0 |
| `Paths.KVContext.Parse` | internal/rule/kv_context.go:268-291 | cached or not, the answer is that of the uncached parser; the cache forgets nothing |
| `Paths.KVContext.Store` | internal/rule/kv_context.go:281-288 | the cache never exceeds 1024 entries and stays truthful |
| `Throttle.ThrottleManager.Allow` | internal/rule/throttle.go:41-53 | over every call sequence in time order the answers are those of a map that is never swept |
| `Throttle.ThrottleManager.SweepExpired` | internal/rule/throttle.go:57-67 | at most once per interval, exactly the expired entries go |
| `Throttle.AllowedIff` | internal/rule/throttle.go:38-53 | a call passes iff the window of the last allowed call on its key is over |
| `Throttle.AllowedAreSpaced` | internal/rule/throttle.go:38-53 | consecutive allowed calls on a key are at least the first one's window apart |
| `Throttle.AllowedPairsSpaced` | internal/rule/throttle.go:38-53 | in time order, so are any two allowed calls on a key |
| `Throttle.Numbering.ReplaceKVRuleSet` | internal/rule/processor.go:524-556 | numbered rules keep their index, new ones get larger ones, all rules ever installed differ |
| `Throttle.ThrottleKeyInjective` | internal/rule/throttle.go:71-73 | a throttle key determines phase, rule index and resolved key |
| `Throttle.ThrottleKeyExamples` | internal/rule/throttle.go:69-73 | the keys are phase, index and resolved key with colons between |
| `Throttle.RulesDoNotInterfere` | internal/rule/throttle.go:41-73 | whatever other rules ask in between, a rule's throttles answer as if it were alone |
| `Throttle.RulesNeverShareKeys` | internal/rule/processor.go:525-533 | two different rules never have a throttle key in common |
| `Outcomes.JudgeRule` | internal/rule/processor.go:895-929 | trigger throttle, conditions and action throttle, in that order, against the throttle's history and the declared meaning of the conditions |
| `Outcomes.File` | internal/rule/processor.go:965-987 | a rule's whole action list goes to the immediate list, or, stamped, into one batch |
| `Outcomes.EvaluateRules` | internal/rule/processor.go:884-996 | over all rules of a message, with the throttle's state carried from rule to rule: the outcome is, in order, every rule's actions at once iff its trigger question passed, its conditions hold, it is not trailing and its leading question, if any, passed; in one batch under its own key and window iff it is trailing and the rest holds; else nothing |
| `Outcomes.JudgeAllYields` | internal/rule/processor.go:892-989 | the same for any rules and throttle history, with the places of the questions in it |
| `Outcomes.BatchKeysDiffer` | internal/rule/processor.go:916-929 | batches of rules with different indexes never share a key, so none replaces another rule's in the coalescer |
| `Emissions.JudgeFollowsLog` | internal/rule/processor.go:895-929 | a trigger throttle is always asked; an action throttle only if it is leading, the trigger was not suppressed and the conditions hold; the judgement obeys the answers |
| `Emissions.EveryRunIsLogged` | internal/rule/processor.go:884-996 | evaluating messages one after the other, the throttle sees exactly the questions of their rules in turn |
| `Emissions.PassesAreSpaced` | internal/rule/processor.go:895-929 | over any such run, two times a rule passes one of its leading throttles on one key are at least the window apart |
| `Emissions.PassesIff` | internal/rule/processor.go:895-929 | a rule passes iff the window of its own last pass on that throttle and key is over: no other rule, phase or key can suppress it |
| `Emissions.EmissionsAreSpaced` | internal/rule/processor.go:916-929 | however workers interleave their questions, two emissions of one rule on one key are at least the earlier window apart |
| `Emissions.LeadingAreSpaced` | internal/rule/processor.go:884-996 | over any sequence of messages, two evaluations of one rule that its leading action throttle lets through on one key are at least the window apart |
| `Emissions.ActionsAreSpaced` | internal/rule/processor.go:918-973 | over any sequence of messages, two evaluations in which a rule with a leading action throttle emits actions on one key are at least the window apart |
| `Emissions.JudgedOfMessage` | internal/rule/processor.go:892-989 | evaluating a message judges its rules as its turns in the shared log are answered |
| `Outcomes.SplitConserves` | internal/rule/types.go:96-106 | the inspection list holds exactly the evaluated actions, as a multiset |
| `Outcomes.BatchesAreRules` | internal/rule/processor.go:975-987 | one batch per trailing rule that produced anything, holding its whole action list |
| `Outcomes.StampsTellApart` | internal/rule/processor.go:970-987 | immediate actions carry no hold, deferred ones carry their batch's |
| `Outcomes.AllIsEvaluationOrderIff` | internal/rule/types.go:89-106 | the inspection list is in evaluation order iff no rule with immediate actions follows a rule with held ones |
| `Outcomes.HeldThenImmediateIsReordered` | internal/rule/types.go:96-106 | a trailing rule followed by an unthrottled one is listed the other way round |
| `FanOut.PreparedForEachAlike` | internal/rule/condition_resolver.go:165-183 | a precomputed forEach path finds the array the runtime split finds |
| `FanOut.ArrayFoundIff` | internal/rule/processor.go:145-204 | the array is what the template's name reads, from the system or along the path's segments, if it is an array within a positive limit |
| `FanOut.VariableOf` | internal/rule/condition_resolver.go:25-42 | the name is what stands between the braces |
| `FanOut.ProcessActionForEach` | internal/rule/processor.go:1305-1415 | total = processed + filtered + failed, actions are the in-order image of exactly the elements that meet the filter and build, within the limit |
| `FanOut.ImageUnique` | internal/rule/processor.go:1327-1385 | that image determines the kept elements and the actions |
| `Delivery.ExecuteHTTPAction` | internal/httpclient/httpclient.go:118-180 | requests stop at the first success, permanent status, cancellation or the limit, and no earlier |
| `Delivery.SentIff` | internal/httpclient/httpclient.go:135-177 | the number of requests sent is the one that description determines |
| `Delivery.SucceedsIff` | internal/httpclient/httpclient.go:136-180 | uncancelled, the action succeeds iff some reply within the limit is a success with no permanent failure before it |
| `Delivery.ConstantServer` | internal/httpclient/httpclient.go:42-180 | 2xx succeeds at once, 4xx other than 408 and 429 fails permanently at once, everything else uses up the attempts (one unless more are configured) and may be retried |
| `Delivery.ProcessMessage` | internal/broker/subscription.go:458-534 | every deferred batch is submitted, every immediate action attempted whatever failed before (only a panic cuts short), and the return is the promised one |
| `Delivery.ProcessMessageWithRecovery` | internal/broker/subscription.go:376-438 | exactly one answer: Ack iff evaluation and all actions succeed, Term iff a panic or all failures permanent, else Nak |
| `Cron.ParseCron` | web/src/utils/cron.js:45-61 | five fields, each of which parses |
| `Cron.RangeCheckAgrees` | web/src/utils/cron.js:81-127 | for every conversion exact up to 2^53, range checks decide as on the written number, and accepted values are stored exactly |
| `Cron.BuiltFieldRoundTrips` | web/src/utils/cron.js:140-163 | for every field state, whatever its numbers, the built field parses and builds the same |
| `Cron.BuiltCronRoundTrips` | web/src/utils/cron.js:130-138 | the same for whole expressions |
| `Cron.FieldOrder` | web/src/utils/cron.js:130-138 | minute, hour, day of month, month, day of week |
| `Cron.FieldRanges` | web/src/utils/cron.js:20-26 | the range of each field |
| `Cron.ClampIsNearest` | web/src/utils/cron.js:159-163 | clamping takes the nearest value of the field to the number without its fraction, the lowest if it is not a number |
| `Cron.CutIsModulo` | web/src/utils/cron.js:143-143 | the step's cut changes it by a multiple of 2^32 |
| `CronMeaning.BuiltSelects` | web/src/utils/cron.js:140-157 | what a built field selects, mode by mode, whatever the state |
| `CronMeaning.StepSelects` | web/src/utils/cron.js:74-80 | a step counts from the field's lowest value |
| `CronMeaning.MonthNumber` | web/src/utils/cron.js:28-28 | the month names count from one |
| `CronMeaning.DayNumber` | web/src/utils/cron.js:29-29 | the weekday names count from zero, Sunday |
| `CronMeaning.NameIsItsNumber` | web/src/utils/cron.js:104-123 | a field that is just a name, in any case, is stored as its number and selects it |
| `CronMeaning.RecognizedMeaning` | web/src/utils/cron.js:63-123 | what parsing recognises in an accepted field is what cron reads in it, names included |
| `CronMeaning.RebuiltMeansTheSameIff` | web/src/utils/cron.js:63-157 | for every conversion that is exact up to 2^53: rebuilding an accepted field keeps the values it selects iff its stored step is below 2^31 or still exceeds the field's span after the cut to 32 bits |
| `CronMeaning.RebuiltCronMeansTheSame` | web/src/utils/cron.js:45-138 | field by field for whole expressions |
| `CronMeaning.CollapsedSteps` | web/src/utils/cron.js:75-143 | accepted steps whose stored value is cut to less than 1 are rebuilt as step 1 and then select every value instead of the lowest |
| `CronMeaning.CollapsedStepExamples` | web/src/utils/cron.js:76-143 | 2^31 is such a step, and so is every step that is stored as 2^56 or as Infinity |

## Left out

- HTTP routing and the HTTP part of the processor's rule set: one request meets one process-wide table, so none of the transport overlap that makes NATS dispatch delicate arises there.
- HMAC and NKey signature checks: cryptography.
- NATS, JetStream, KV stores, the HTTP client, gocron, YAML parsing, configuration, logging, metrics: foreign code or plumbing; where they matter they are functions that decide success or failure.
- `LocalKVCache`: its lazy loads can interleave with watcher updates, so it does not promise agreement with the bucket.
- Value comparison, number coercion and timestamps in conditions: `compare` is any function of operator and values.
- Random, uuid and time functions in templates: the resolver is one fixed function within a rendering.
- File mode with several subscriptions: each delivery matches by message subject again, so exactly-once dispatch is claimed for KV mode and the fallbacks are accounted for separately.
- Integer overflow of the rule counter, of times and of back-off delays, and the delays themselves.
- Conditionals.PrepareConditions: builds the prepared tree instead of writing the caches in place, because the tree has a single owner while it is loaded; aliasing is not captured.
- Conditionals.PreparationPreservesMeaning: speaks of trees without padded templates, because `FastEqualsSlowIff` shows that padded ones resolve differently.
- ReloadTheorems.ResyncUpToDateIff: a redelivered value is judged as it was the first time; a stream created or removed during the outage can change that.
- StreamChoice.FindStreamForSubject: insertion by the same comparator stands in for the library sort; `FirstOfAnySort` covers any other sort.
- Outcomes.EvaluateRules: throttle keys and actions come already templated for the message (the scanner has its own module), and the counters of the statistics are not kept.
- Cron.BuiltFieldRoundTrips: insertion into a sorted list stands in for JavaScript's sort and Set.
- CoalescerTheorems.NothingExecutesAfterReturn: speaks of the first Stop; a second Stop returns at once while the first may still be flushing.
- Reload.StartSubscriptions: a subscription's consumer, workers and stream are not represented, only whether the subject is consumed.
- Json.TraversePath: maps with non-string keys, which only YAML decoding produces, are not represented.
- Delivery.ProcessMessageWithRecovery: the broker's own errors on Ack, Nak and Term are only logged by the code and are not represented; neither is the delay between HTTP retries.
