# ThebeCore, modelled and proved

ThebeCore is a governance and publishing service: customers are evaluated against rule packs,
findings and documents are kept with an audit trail, and a creator vertical generates, checks,
approves and packages publishing assets. This project models the parts of it that keep
invariants over unbounded runs or inputs, and proves those invariants.

| file | what it models |
|---|---|
| `DocumentVersions.dfy`, `DocumentHistory.dfy` | review / approve / regenerate as three separately committed sessions each, interleaved by any number of callers; who made which version |
| `Findings.dfy`, `FindingMeaning.dfy`, `FindingRuns.dfy` | the finding status machine with its log, reconciliation with rule results, and passes that overlap |
| `Timeline.dfy` | the merged customer timeline that cuts each source before merging |
| `Json.dfy`, `Engine.dfy` | JSON values, dotted paths, and the recursive three-valued condition evaluator |
| `EngineMeaning.dfy` | what each operator answers about the values its path leads to |
| `EngineLaws.dfy` | the algebra of and / or / not: permuting, duplicating, flattening, De Morgan |
| `EngineStability.dfy` | definite outcomes are final; the collected paths are all an evaluation reads |
| `Score.dfy` | the rounded score |
| `Rules.dfy`, `RuleMeaning.dfy` | one control rule, and a whole pack; what statuses, evidence, violations and required actions say |
| `Publishing.dfy` | the platform rule and the two destination validators |
| `Governance.dfy` | the governance mapping, the label, and the shipped pack end to end |
| `Assets.dfy`, `AssetService.dfy` | the asset lifecycle with its calls in sessions, the package gate; current assets and campaign planning |
| `ResetDemo.dfy`, `ResetRuns.dfy` | seven deletes in foreign-key order, then the insert-if-missing seed; resets and seeds whose sessions interleave |
| `Jobs.dfy` | the job queue with its single worker |
| `Breaker.dfy` | the circuit breaker |
| `Slug.dfy`, `HtmlText.dfy`, `HtmlLines.dfy` | text normal forms reached by chained rewrites; the lines of the result |
| `Ordering.dfy`, `Picking.dfy`, `Strings.dfy`, `Wrappers.dfy` | string order and `sorted(set(...))`; places in a list; stripping; Option and Result |

Code that updates state is a class or a method with loops, proved against a specification
function; what the service promises is then proved about that function. Exceptions are `Err`
values or the engine's fourth outcome `Error`. Where calls interleave, one
database session is one step.

Readings fixed throughout:

- Wall-clock time is passed in. Where `created_at` only orders rows, rows sit in a table in
  creation order and a row's position is its age and, where ids are random, its id. Ties in time
  are kept where they matter: in the timeline.
- Scores are exact rationals, rounded half to even to four places, as an integer count of 1/10000.
- Named predicates are arbitrary functions of the context. Python's `str`, `strip`, `lower` and
  Unicode whitespace are parameters; the few facts used of them are stated as preconditions.
- Each audited operation's own audit event is left out, except a finding's status changes.

Where the code and what one would expect of it part ways:

- Two reviews that read the same current version both insert a successor, so concurrent calls
  leave a tree, not a chain (`RacingReviewsFork`). The numbers stay distinct exactly when
  every insert is made from a snapshot that is still the newest version
  (`LinearExactlyWhenNeverStale`).
- A definite DSL outcome can be lost as information arrives, only by turning into a type error
  (`WrongTypeRaises`), and exactly when the evaluation reaches a comparison whose types do not fit
  (`DefiniteIsLostExactly`).
- The order of an and / or matters as soon as a child raises while another decides the outcome or
  raises something else, and only then (`OrderIrrelevantExactly`).
- The slug pattern ends in `$`, which in Python also matches before a final newline, so
  `_validate_slug` accepts a slug followed by one newline (`NewlineSlipsThrough`).
- Reconciliation scans the existing findings once, before its loop, so a rule that fails twice in
  one result gets two open findings (`PassKeepsOneOpenExactly`), and so does one that two
  overlapping passes find failing (`OverlapLeavesTwo`); a failing result without a rule id gets a
  new finding on every pass (`SecondPassChangesNothingExactly`).
- The platform rule covers KDP's publisher check exactly when some author or publisher name is not
  blank (`PlatformRuleIsAsStrict`); and it refuses amazon.com, which KDP's own list lacks
  (`PlatformRuleExactly`).
- The seed uses fixed ids whatever the tenant, so only one tenant can have the demo: for any other
  one the reset stops after its deletes are committed (`UninterruptedAfterAnyRun`). It also stops
  there for the owner, if the author is given a mind between the deletes and the plant
  (`ResetFailsForItsOwner`, `PlantFailsExactly`).
- Source fields do not say that an answer was looked for and not found, so a context that records
  one can agree on all of them and still change the result (`UnreportedAnswerCounts`); and under a
  control key with dots the reported path is not the answer's (`SourceFieldsDetermineExactly`).
- Selecting a job and starting it are two sessions. An older job retried in between is overtaken
  (`RetryIsOvertaken`, `OlderDoneAtStartExactly`).
- An approval checks the verdict and approves in separate sessions, so an asset blocked in between
  is approved all the same (`GrantedExactly`); the package gate still refuses it. A package in turn
  reads the gate before it is built (`GateAtBuildExactly`).
- A revision whose tenant is reset before it inserts can leave an asset whose parent is gone
  (`ResetOrphansRevision`, `ParentPresentExactly`).
- A breaker with a threshold below one is closed with no failures, which its own comparison would
  call open (`ThresholdMustBePositive`).

## Model

| member | source | states |
|---|---|---|
| DocumentVersions.EveryRunIsSound | thebe_core/audit/service.py:669-890 | in every interleaving of the read, insert and mark steps of any number of calls: every made version has its parent numbered one less, superseded_by points to a version made from this one, approvals are four-eyes over the same text, one root per document, and every unmarked parent has a call that will mark it |
| DocumentVersions.StepKeepsInv | thebe_core/audit/service.py:739-890 | each of the six steps keeps that invariant, including what each call in flight believes about the table |
| DocumentVersions.InsertKeepsSound | thebe_core/audit/service.py:739-890 | the insert of a successor made from a stale snapshot keeps the links, four eyes and the single root |
| DocumentVersions.MarkKeepsSound | thebe_core/audit/service.py:775-787 | marking the old version superseded keeps them too, even if it overwrites an earlier mark |
| DocumentVersions.KeepMarks | thebe_core/audit/service.py:739-890 | a version with a successor is superseded or some call still owes the mark |
| DocumentVersions.CurrentIsHighest | thebe_core/audit/service.py:669-687 | a document with a version always has a current one, and it has the highest number of all versions, superseded ones included |
| DocumentVersions.AncestorNumber | thebe_core/audit/service.py:739-890 | going back k links lowers the number by k and never returns to the start: no cycles |
| DocumentVersions.OneTree | thebe_core/audit/service.py:739-890 | any two versions of a document descend from the same root, in as many steps as the numbers differ |
| DocumentVersions.InsertKeepsLinearExactly | thebe_core/audit/service.py:739-890 | an insert keeps version numbers distinct if and only if nobody has inserted since the read |
| DocumentVersions.LinearExactlyWhenNeverStale | thebe_core/audit/service.py:739-890 | over any run the numbers stay distinct if and only if every insert was made from a fresh snapshot |
| DocumentVersions.SettledIsChain | thebe_core/audit/service.py:669-890 | distinct numbers with every mark made are one contiguous chain: exactly one unsuperseded version, mutually inverse links |
| DocumentVersions.QuietRunIsChainExactly | thebe_core/audit/service.py:669-890 | a run that leaves no call owing a mark ends in such a chain if and only if no insert in it was stale |
| DocumentVersions.AtomicCallKeepsChain | thebe_core/audit/service.py:739-890 | one uninterrupted review, approval or regeneration keeps the chain |
| DocumentVersions.SuccessorIsCurrent | thebe_core/audit/service.py:739-890 | and its successor is the new current version |
| DocumentVersions.AtomicCallIsARun | thebe_core/audit/service.py:739-890 | the uninterrupted call is one of the interleavings |
| DocumentVersions.RacingReviewsFork | thebe_core/audit/service.py:739-787 | a concrete run of two racing reviews that leaves two unsuperseded versions with one number |
| DocumentHistory.VersionIsItsCallers | thebe_core/audit/service.py:739-890 | over every run: the version a call inserts is created by the actor that began the call and is what was asked for: a review is reviewed by this actor, an approval approved by it from a reviewed version that names somebody else, a regeneration has the given text, or its parent's if none is given |
| DocumentHistory.VersionHasItsCall | thebe_core/audit/service.py:739-890 | and every version with a parent was inserted by a call that some actor began for its document |
| DocumentHistory.ReviewerReviewed | thebe_core/audit/service.py:739-787 | a made version with status reviewed was inserted by a review that its reviewed_by asked for |
| DocumentHistory.NobodyApprovesOwnReview | thebe_core/audit/service.py:739-839 | from the actions alone, under every interleaving: the actor who reviewed a version is not the one who approved a successor of it |
| DocumentHistory.ApprovalTakesTwo | thebe_core/audit/service.py:739-839 | an approved version made from a made one took a review and an approval, by the two different people its columns name |
| DocumentVersions.DocumentService.GetCurrentDocumentVersion | thebe_core/audit/service.py:669-687 | returns an unsuperseded version of the highest number, or none exactly when there is none |
| DocumentVersions.DocumentService.Advance | thebe_core/audit/service.py:739-890 | the shared body of review, approve and regenerate: an approval is refused if and only if the current version is not reviewed, or by nobody, or by the approver; otherwise one row is added, made by the actor for this request from the current version (a review names the actor as reviewer, an approval as approver, a regeneration has the new text or the old one), the current version is marked superseded by it, and no other row changes; the chain is kept |
| Findings.FindingService.UpdateFinding | thebe_core/audit/service.py:382-436 | exactly when the transition is refused; otherwise the status and assignee given are stored, the others kept, a change of status logged once with its reason, and no other finding changes |
| FindingMeaning.RefusedExactly | thebe_core/audit/service.py:374-404 | an update is refused if and only if it asks for another status that is not further on among open, triaged, assigned, resolved, closed |
| Findings.FindingService.UpsertFindingsFromResult | thebe_core/audit/service.py:438-479 | the loop over the results computes the specified pass, and no update in it raises |
| Findings.FindingService.ScanExisting | thebe_core/audit/service.py:438-458 | the scan keeps the last row of each non-empty rule id |
| Findings.LogExplainsStatus | thebe_core/audit/service.py:374-436 | in any sequential run, replaying the logged changes gives the present status, each entry starts where the last ended, and the status has risen by at least the number of changes |
| Findings.AtMostFourChanges | thebe_core/audit/service.py:374-436 | a finding changes status at most four times; a closed one never |
| Findings.PassShape | thebe_core/audit/service.py:438-479 | a pass only resolves the passing rules' newest findings and appends the rows that are needed |
| FindingMeaning.OldFindingsExactly | thebe_core/audit/service.py:438-479 | of the findings there, a pass resolves exactly the newest one of each rule that now passes and is open, triaged or assigned, and changes nothing else |
| FindingMeaning.NewFindingsExactly | thebe_core/audit/service.py:459-470 | it adds one open finding for each failing result whose rule has none that is not closed, in order, with that result's rule, text and severity, and no others |
| Findings.PassKeepsOneOpenExactly | thebe_core/audit/service.py:438-479 | a pass keeps at most one non-closed finding per rule, the newest, if and only if no rule asks for two new rows |
| Findings.DistinctIsEnough | thebe_core/audit/service.py:438-479 | distinct rule ids never do |
| Findings.FailingRulesAreOpen | thebe_core/audit/service.py:459-470 | after a pass every FAIL or PARTIAL rule has a finding that is not closed |
| Findings.PassingRulesAreSettled | thebe_core/audit/service.py:471-479 | after a pass every finding of a PASS rule is resolved or closed |
| Findings.SecondPassChangesNothingExactly | thebe_core/audit/service.py:438-479 | repeating a pass changes neither findings nor log, if and only if no failing result lacks a rule id |
| Findings.RunKeepsOneOpen | thebe_core/audit/service.py:374-479 | every run of updates and uninterrupted distinct-rule passes, for any customers, keeps at most one non-closed finding per rule |
| FindingRuns.RunIsOneOpenExactly | thebe_core/audit/service.py:438-479 | with passes that overlap, a customer has at most one non-closed finding per rule all along if and only if no finding was created from a stale scan |
| FindingRuns.StepKeepsOneOpenExactly | thebe_core/audit/service.py:459-479 | one committed result keeps it if and only if it creates none from a stale scan |
| FindingRuns.RaisesExactly | thebe_core/audit/service.py:471-479 | a pass stops with an error if and only if a finding it would resolve was closed since its scan |
| FindingRuns.OverlapLeavesTwo | thebe_core/audit/service.py:438-479 | a concrete run of two overlapping passes that leaves two open findings for one rule |
| Timeline.GetCustomerTimeline | thebe_core/audit/service.py:976-1060 | the timeline has the newest `limit` times of the full history, on the customer's own rows, each at most as often as it occurs |
| Timeline.NewestOfThree | thebe_core/audit/service.py:976-1060 | cutting each of three sources before merging, sorting and cutting gives the same times as sorting everything, for every limit |
| Timeline.NewestOfOneSource | thebe_core/audit/service.py:976-1060 | the same for one source in any merge |
| Timeline.DescendingIsUnique | thebe_core/audit/service.py:1056-1060 | a multiset of times has one descending enumeration, so the sort is determined |
| Timeline.NewestRows | thebe_core/audit/service.py:984-1040 | one source's query: matching rows whose times are the newest, ties in any order |
| Timeline.SortNewestFirst | thebe_core/audit/service.py:1056-1060 | a permutation whose times descend |
| Engine.Condition | thebe_core/policy/engine.py:231-250 | the dispatch over null, callable, predicate name and DSL node computes EvaluateCondition; see EngineMeaning.ConditionMeans |
| Engine.Dsl | thebe_core/policy/engine.py:252-312 | the DSL node's sequence of tests, with its loops, computes EvaluateDsl; what EvaluateDsl answers is in the rows of EngineMeaning |
| Engine.AndLoop | thebe_core/policy/engine.py:262-272 | the short-circuit loop with its unknown flag computes the fold over all children |
| Engine.OrLoop | thebe_core/policy/engine.py:274-284 | likewise for or |
| EngineMeaning.EqualityMeans | thebe_core/policy/engine.py:289-298 | eq of a leaf and a literal is True exactly when they are the same value or the same number, and otherwise False; ne is the opposite |
| EngineMeaning.NumberOrderMeans | thebe_core/policy/engine.py:299-306 | gt, gte, lt and lte of numbers are True exactly when the value found is >, >=, <, <= the literal |
| EngineMeaning.TextOrderMeans | thebe_core/policy/engine.py:299-306 | of strings, exactly when it comes after, not before, before, not after it in dictionary order |
| EngineMeaning.MembershipMeans | thebe_core/policy/engine.py:307-310 | in is True exactly when the value found is an item of the literal list, a part of the literal string or a key of the literal dictionary; contains is the converse |
| EngineMeaning.UnknownExactly | thebe_core/policy/engine.py:289-293 | a comparison is unknown exactly where its path leads nowhere or to not_sure |
| EngineMeaning.PresenceMeans | thebe_core/policy/engine.py:255-260 | exists is True exactly when the path leads to a value that is neither null nor the empty string; not_exists is its negation |
| EngineMeaning.NotMeans | thebe_core/policy/engine.py:262-266 | not swaps True and False, and keeps unknown and errors |
| EngineMeaning.AndMeans | thebe_core/policy/engine.py:268-277 | the first child that is False or raises decides an and; if none does, one unknown child leaves it unknown, else it is True |
| EngineMeaning.OrMeans | thebe_core/policy/engine.py:279-288 | the first child that is True or raises decides an or; if none does, one unknown child leaves it unknown, else it is False |
| EngineMeaning.ConditionMeans | thebe_core/policy/engine.py:231-250 | null does not hold, a name or a callable answers as its predicate, an unknown name raises |
| EngineMeaning.NumberFreeEqualExactly | thebe_core/policy/engine.py:295-298 | lists and dictionaries without numbers are equal exactly when they are the same all the way down |
| EngineMeaning.ListOrderMeans | thebe_core/policy/engine.py:299-306 | lists are ordered by the first items that differ, and a list before any that continues it |
| EngineLaws.AndIsMinimum | thebe_core/policy/engine.py:262-272 | without type errors and is the minimum in False, Unknown, True |
| EngineLaws.OrIsMaximum | thebe_core/policy/engine.py:274-284 | without type errors or is the maximum |
| EngineLaws.DeMorgan | thebe_core/policy/engine.py:262-288 | negation exchanges the two folds |
| EngineLaws.RewritingKeepsOutcome | thebe_core/policy/engine.py:262-288 | permuting or duplicating children at any depth keeps the outcome, where at every and / or no child raises, or none decides and all errors agree |
| EngineLaws.OrderIrrelevantExactly | thebe_core/policy/engine.py:262-284 | that condition is exact: every reordering of an and / or gives the same outcome if and only if it holds of the children |
| EngineLaws.ErrorsMakeOrderMatter | thebe_core/policy/engine.py:262-312 | a concrete swap of a deciding child and one that raises changes the outcome |
| EngineLaws.FlatteningKeepsOutcome | thebe_core/policy/engine.py:262-288 | splicing nested and into and, or into or, at every depth keeps the outcome, errors included |
| EngineLaws.FlattenedIsFlat | thebe_core/policy/engine.py:262-288 | the result has no and directly under and, no or directly under or |
| EngineLaws.NegationDualizes | thebe_core/policy/engine.py:262-288 | not over and equals or over the nots, and conversely, on evaluated conditions |
| EngineStability.DefiniteIsLostExactly | thebe_core/policy/engine.py:252-328 | as missing or not_sure values are filled in, a True or False of a condition without exists, not_exists and predicates is lost if and only if the evaluation now reaches a comparison whose types do not fit its operator |
| EngineStability.DefiniteIsFinal | thebe_core/policy/engine.py:252-328 | where every comparison fits the new context, for every operator, a True or False is final |
| EngineStability.ComparisonRaisesExactly | thebe_core/policy/engine.py:289-312 | a comparison raises if and only if it does not fit: a condition on the types found alone |
| EngineStability.RaisesExactly | thebe_core/policy/engine.py:252-312 | a condition raises if and only if its short-circuiting evaluation reaches a misfit |
| EngineStability.FittedBefore | thebe_core/policy/engine.py:252-328 | what fits the later context fitted the earlier one |
| EngineStability.PlainIsFinal | thebe_core/policy/engine.py:252-306 | conditions of and, or, not, equality and membership in a literal list: a True or False is final, whatever arrives |
| EngineStability.DefiniteIsKept | thebe_core/policy/engine.py:252-328 | with type errors possible, it stays or becomes an error, never the opposite or unknown |
| EngineStability.WrongTypeRaises | thebe_core/policy/engine.py:289-312 | a condition and an extension of its context for which True becomes an error |
| EngineStability.SamePathsSameOutcome | thebe_core/policy/engine.py:252-341 | contexts that agree on every collected path give a predicate-free condition the same outcome |
| EngineStability.CollectInto | thebe_core/policy/engine.py:330-340 | the recursion into one shared list adds exactly the paths of the node and leaves the earlier entries |
| EngineStability.CollectPaths | thebe_core/policy/engine.py:330-341 | the result is strictly sorted and holds exactly the paths of the node |
| EngineStability.PathHasAddress | thebe_core/policy/engine.py:330-340 | every such path occurs under a `path` key at some position in the node |
| EngineStability.AddressedPathCounts | thebe_core/policy/engine.py:330-340 | and every path at such a position is collected |
| Ordering.SortedIsUnique | thebe_core/policy/engine.py:341 | a set of strings has one strictly sorted listing |
| Ordering.LessExactly | thebe_core/policy/engine.py:299-306 | one string is less than another exactly when after a common part it ends or has the smaller character |
| Json.ResolvesExactly | thebe_core/policy/engine.py:314-328 | a dotted path, with or without the attributes prefix, resolves to a value exactly when its keys lead there one dictionary entry after the other |
| Json.SplitDotted | thebe_core/policy/engine.py:318 | splitting keys joined by dots gives the keys back |
| Json.DottedSplit | thebe_core/policy/engine.py:318 | and joining the parts of any path gives the path back |
| Json.WalkInforms | thebe_core/policy/engine.py:314-328 | more information in a value is more information at the end of every path |
| Json.InformsIsTransitive | thebe_core/policy/engine.py:314-328 | information arrives in any number of stages |
| Score.ComputeScore | thebe_core/policy/engine.py:61-67 | the running counts give the specified score |
| Score.RoundIsNearest | thebe_core/policy/engine.py:67 | rounding is to a nearest multiple, ties to even |
| Score.NearestIsUnique | thebe_core/policy/engine.py:67 | which determines it |
| Score.AbsentExactlyWhenNothingAssessed | thebe_core/policy/engine.py:61-67 | no score exactly when every rule is UNKNOWN or NOT_APPLICABLE |
| Score.ScoreIsAccurate | thebe_core/policy/engine.py:61-67 | the score is in [0, 1] and within 1/20000 of the exact ratio |
| Score.FullScoreExactly | thebe_core/policy/engine.py:61-67 | for any number of rules, the score is 1 exactly when the shortfall rounds away |
| Score.ZeroScoreExactly | thebe_core/policy/engine.py:61-67 | and 0 exactly when the points do |
| Score.ExtremesAreExact | thebe_core/policy/engine.py:61-67 | below 10000 assessed rules, 1 exactly when all pass and 0 exactly when all fail |
| Score.ImprovingNeverLowers | thebe_core/policy/engine.py:61-67 | raising any statuses from FAIL to PARTIAL to PASS never lowers the score |
| Rules.EvaluateControlRule | thebe_core/policy/engine.py:78-229 | the sequence of early returns computes ControlRule; what ControlRule reports is in the rows of RuleMeaning |
| Rules.CollectActive | thebe_core/policy/engine.py:358-373 | the evidence of the last 365 days or without a time stamp, in order |
| RuleMeaning.AnswerSettlesStatus | thebe_core/policy/engine.py:113-175 | where the rule applies and an answer is recorded the status is FAIL exactly for no, UNKNOWN exactly for unanswered and not_sure, PARTIAL exactly for any other answer with required evidence all missing or older than 365 days, else PASS, whatever the check says or raises; evidence is reported exactly with a PASS |
| RuleMeaning.CheckSettlesStatus | thebe_core/policy/engine.py:177-229 | without an answer: the check's exception, FAIL where it is False, UNKNOWN where unknown, PARTIAL where True with required evidence missing, else PASS |
| RuleMeaning.ApplicabilitySettlesStatus | thebe_core/policy/engine.py:85-112 | a rule that does not apply is NOT_APPLICABLE, one not known to apply UNKNOWN, without evidence, whatever the answer |
| RuleMeaning.ResultIsTheRules | thebe_core/policy/engine.py:78-229 | a result carries the rule's own fields, and its source fields are exactly the paths of both conditions and, if there is an answer, the answer's |
| RuleMeaning.ActiveIdsExactly | thebe_core/policy/engine.py:358-373 | the evidence reported is that of exactly the rows changed in the last 365 days or without a time, each once, in order |
| Rules.ResultIsLostExactly | thebe_core/policy/engine.py:78-229 | with answers and evidence fixed, a result that is not UNKNOWN is lost as information arrives if and only if the rule's evaluation now reaches a misfit, and then it raises |
| Rules.ResultIsFinal | thebe_core/policy/engine.py:78-229 | where every comparison fits the new context, such a result is final |
| Rules.PackIsFinal | thebe_core/policy/engine.py:32-76 | a pack whose comparisons fit the new context is evaluated without exception before and after, and no result but UNKNOWN changes |
| Rules.SourceFieldsAreComplete | thebe_core/policy/engine.py:78-229 | with answers and evidence fixed, the reported source fields determine the result |
| Rules.SourceFieldsDetermineExactly | thebe_core/policy/engine.py:37-229 | with the answers read from the context itself and evidence fixed, they determine it if and only if there is no control key, or the rule does not surely apply, or an answer was recorded under a key without dots, or none is recorded in the other context either; under a key with dots the other answer must decide the same |
| Rules.AnswerPathResolves | thebe_core/policy/engine.py:343-356 | the path reported for an answer leads to it when the key has no dots |
| Rules.UnreportedAnswerCounts | thebe_core/policy/engine.py:78-229 | two contexts that agree on every reported field, of which there are none, and differ in the result |
| Rules.Evaluate | thebe_core/policy/engine.py:32-76 | the loop over the rules gives the results in order, or the first exception |
| Rules.Assemble | thebe_core/policy/engine.py:38-76 | violations, required actions and score of the results |
| RuleMeaning.ViolationsExactly | thebe_core/policy/engine.py:47-60 | one violation for each failing result, in order, with that result's fields |
| RuleMeaning.RequiredActionsExactly | thebe_core/policy/engine.py:44-45 | the required actions are those some failing result recommends, each once, in the order of the first place that recommends them |
| RuleMeaning.FirstOccurrencesExactly | thebe_core/policy/engine.py:75 | removing duplicates keeps the same elements, each at the place of its first occurrence |
| Publishing.ValidateKdp | thebe_core/creator/publishing.py:118-142 | which issues are raised, and ok exactly when none is |
| Publishing.ValidateIngram | thebe_core/creator/publishing.py:201-220 | likewise |
| Publishing.AllowedExactly | thebe_core/creator/publishing.py:89-101 | a publisher is accepted if and only if it is not blank, no marketplace's name, and agrees, stripped and in lower case, with the display name, the imprint or the account name |
| Publishing.FirstNameCounts | thebe_core/creator/publishing.py:126-131 | the publisher looked at is the first there is of the edition's field, the imprint, the display name and the account name |
| Publishing.ContextReadsBack | thebe_core/creator/service.py:663-677 | what the rules read from the evaluation context is the edition's and the author's own data |
| Publishing.PlatformRuleExactly | thebe_core/creator/predicates.py:94-119 | the platform rule holds exactly when IngramSpark raises no ISBN issue, a publisher is named that is not amazon.com, and KDP allows it; with no name known it need only not be a marketplace |
| Publishing.PlatformRuleIsAsStrict | thebe_core/creator/publishing.py:89-142 | where the platform rule holds, IngramSpark raises no ISBN issue, and KDP no publisher issue if and only if some name is known, as with a non-blank author name |
| Governance.MapRules | thebe_core/creator/service.py:593-605 | exactly the FAIL of a claim or voice rule, and of the platform rule where no ISBN is missing, becomes PARTIAL; nothing else changes |
| Governance.RepairViolations | thebe_core/creator/service.py:606-627 | the filter and the loop that adds missing violations |
| Governance.MapGovernance | thebe_core/creator/service.py:588-637 | the whole mapping |
| Governance.ViolationsMatchFailures | thebe_core/creator/service.py:606-627 | on any result, the mapped violations name exactly the rules with a FAIL or PARTIAL |
| Governance.EngineOutputIsKept | thebe_core/creator/service.py:606-635 | the engine's own violations and required actions come out unchanged |
| Governance.MappingIsIdempotent | thebe_core/creator/service.py:588-637 | mapping twice is mapping once |
| Governance.StoredScoreIsConservative | thebe_core/creator/service.py:588-637 | the stored score never exceeds the one recomputed from the mapped statuses |
| Governance.LabelEndToEnd | thebe_core/creator/service.py:588-680 | with the shipped rules: block exactly on rights, privacy or a missing print ISBN, else review exactly on claims, voice or platform, else allow |
| Governance.AssetLabelEndToEnd | thebe_core/creator/service.py:646-680 | the same for the context built from an author and an edition, or from an author alone when the book has none |
| Governance.PackResults | verticals/creator_publishing/rules.yaml:2-41 | each shipped rule passes or fails with its predicate |
| Governance.LabelOfFive | thebe_core/creator/service.py:588-644 | the label of five results after the mapping |
| Assets.EveryRunKeepsInv | thebe_core/creator/service.py:491-788 | in every run, with generations, revisions and approvals in their sessions and resets in between: approved implies evaluated, the verdict is the recorded one, an asset there has its book and document, and a parent is or was an older asset of the same book and tenant |
| Assets.ParentPresentExactly | thebe_core/creator/service.py:750-775 | what a revision inserts has a parent that is still there if and only if the tenant was not reset since the revision read; after a reset it can be inserted only under the seed's book and document |
| Assets.ResetOrphansRevision | thebe_core/creator/service.py:750-775 | a concrete run that leaves an asset whose parent is gone |
| Assets.RowStaysExactly | thebe_core/creator/service.py:885-932 | an asset outlasts a run if and only if its tenant is not reset in it |
| Assets.OnlySeedIdsReturn | thebe_core/creator/seed.py:86-172 | of the ids a reset frees only the seed's come back |
| Assets.GrantedExactly | thebe_core/creator/service.py:706-728 | an approval past its check goes through if and only if the tenant was not reset meanwhile, and leaves an approved and blocked asset if and only if the last verdict stored in between was a block |
| Assets.AtomicApprovalIsARun | thebe_core/creator/service.py:706-728 | the uninterrupted approval is the three sessions in a row |
| Assets.GateChoosesCurrent | thebe_core/creator/service.py:790-795 | last-wins over the reversed list is first-wins over the list, for every kind |
| Assets.GateIsRequiredApproved | thebe_core/creator/service.py:790-795 | the gate asks about the newest description |
| Assets.NewestIsNewest | thebe_core/creator/service.py:466-482 | what first in the newest-first listing means: no younger asset of the kind |
| Assets.GateStepExactly | thebe_core/creator/service.py:491-795 | after a step the gate is open if and only if the step approved an unblocked newest description or lifted the block of an approved one, or the gate was open and the step did not insert a newer description, reject or block the newest, or delete the book's rows |
| Assets.GateAtBuildExactly | thebe_core/creator/jobs.py:70-90 | a package checked behind an open gate is built behind an open one if and only if no step since the check shut it without a later one opening it |
| Assets.OnlyApprovalApproves | thebe_core/creator/service.py:491-788 | only an approval of the newest description that goes through makes the newest description approved |
| Assets.NewDescriptionShutsGate | thebe_core/creator/service.py:491-534 | a new description, generated or made by revision, closes the gate |
| Assets.NewDescriptionKeepsGateShut | thebe_core/creator/service.py:491-795 | and over any run after it the gate stays closed until an approval of the then newest description goes through |
| Assets.GateStaysShut | thebe_core/creator/service.py:491-795 | a gate closed because the newest description is not approved stays closed over any run without such an approval |
| AssetService.CreatorService.PersistGeneratedAssets | thebe_core/creator/service.py:491-534 | one pending draft per payload at the end of the table, or a foreign-key error if the book or document has gone |
| AssetService.CreatorService.GenerateAssets | thebe_core/creator/jobs.py:35-52 | the lookups and the insert, uninterrupted |
| AssetService.CreatorService.EvaluateAsset | thebe_core/creator/service.py:646-704 | the verdict and its record are stored, on the tenant's own asset, and nothing else changes |
| AssetService.CreatorService.ApproveAsset | thebe_core/creator/service.py:706-728 | uninterrupted: refuses exactly when the label, by this evaluation if the asset was pending, is block; otherwise approves; nothing else changes |
| AssetService.CreatorService.RejectAsset | thebe_core/creator/service.py:730-748 | sets the rejection and its note on the tenant's own asset, nothing else |
| AssetService.CreatorService.ReadRevision | thebe_core/creator/service.py:750-760 | what a revision reads, and exactly when it refuses |
| AssetService.CreatorService.ReviseAsset | thebe_core/creator/service.py:750-788 | uninterrupted: adds pending drafts that are children of the revised asset under its book and document, with the correction, or refuses; no row there changes |
| AssetService.CreatorService.CurrentAssets | thebe_core/creator/service.py:476-482 | the newest asset of each kind, in the order of the asset specifications |
| AssetService.CurrentIsNewestOfEachKind | thebe_core/creator/service.py:476-482 | an asset is current exactly when it is the newest of a specified kind |
| AssetService.CreatorService.CreateCampaign | thebe_core/creator/service.py:797-838 | five tasks as planned |
| AssetService.TasksUseOwnApprovedAssets | thebe_core/creator/service.py:797-838 | a task's asset is the book's own, approved, and the newest of its kind |
| AssetService.TaskCarriesExactly | thebe_core/creator/service.py:797-838 | a task carries an asset if and only if it is the newest of the slot's kind and approved; the rest is the slot's, pending exactly without one |
| AssetService.CreatorService.CheckPackage | thebe_core/creator/jobs.py:70-72 | passes exactly when the gate of the tenant's own book is open |
| AssetService.CreatorService.BuildPackage | thebe_core/creator/jobs.py:70-90 | uninterrupted: succeeds only when the newest description is approved and was evaluated as allow or review |
| ResetRuns.EveryRunKeepsInv | thebe_core/creator/service.py:160-942 | in every interleaving of creations with the sessions of any tenants' resets and startup seeds: foreign keys hold, rows share their parents' tenant, an author has one mind, what is stored under a fixed id hangs off the seed author, and a call that found or wrote the author has it as its own tenant's |
| ResetRuns.PlantFailsExactly | thebe_core/creator/seed.py:69-172 | the session that plants raises if and only if the author has a mind by then that is not the seed's |
| ResetRuns.MindSlipsIn | thebe_core/creator/service.py:210-228 | asking for the author's mind before the rows are planted makes the plant fail, and a later startup seed too |
| ResetRuns.ResetFailsForItsOwner | thebe_core/creator/service.py:885-942 | a concrete run in which the owner of the seed author, with no seed id elsewhere, loses its books to a failed reset |
| ResetRuns.InterruptedResetExactly | thebe_core/creator/service.py:885-942 | a reset that got as far as planting, no other call of its tenant having taken a step, succeeds and leaves exactly the seed rows if and only if since its deletes nothing was created for the tenant's books and no mind for the seed author |
| ResetRuns.SessionKeepsOthers | thebe_core/creator/service.py:885-942 | no session loses or changes a row of another tenant |
| ResetRuns.OnlyResetsOverwrite | thebe_core/creator/seed.py:46-64 | over every run an existing customer's row is never lost, and changes only in the author's session of a call that began as a reset of its own tenant and found the author; a startup seed (thebe_core/api.py:446) changes none |
| ResetRuns.FoundAuthorIsRewritten | thebe_core/creator/seed.py:57-64 | and that session leaves the seed's data in it |
| ResetRuns.CallHasItsOrigin | thebe_core/creator/service.py:885-942 | every call in flight goes back to the first request under its number, has its tenant, and never comes to reuse an author if that was a startup seed |
| ResetRuns.UninterruptedReset | thebe_core/creator/service.py:885-942 | the sessions in a row are the reset as a whole |
| ResetRuns.UninterruptedAfterAnyRun | thebe_core/creator/service.py:885-942 | in any reachable state a reset that nothing interrupts fails if and only if another tenant owns the seed author, and never touches another tenant's rows |
| ResetDemo.CreatingKeepsInv | thebe_core/creator/service.py:285-440 | each creating operation keeps that invariant |
| ResetDemo.EveryDeleteKeepsKeys | thebe_core/creator/service.py:888-932 | after each single delete statement no foreign key dangles |
| ResetDemo.OnlyOwnRowsDeleted | thebe_core/creator/service.py:888-932 | every deleted row is the tenant's |
| ResetDemo.PurgedOfTenant | thebe_core/creator/service.py:888-932 | after the last one the tenant has no book and nothing that hangs off one |
| ResetDemo.HeldExactlyWithAuthor | thebe_core/creator/seed.py:39-172 | another tenant holds some seed id if and only if it owns the seed author |
| ResetDemo.SeedKeepsInv | thebe_core/creator/seed.py:39-172 | the seed keeps the invariant, however much of it is already there and whether or not it raises |
| ResetDemo.PlantRaisesExactly | thebe_core/creator/seed.py:69-172 | planting raises if and only if the author has a mind that is not the seed's |
| ResetDemo.SeedRaisesExactly | thebe_core/creator/seed.py:39-172 | an uninterrupted seed raises if and only if another tenant owns the author or the author has such a mind |
| ResetDemo.SeedWritesExactly | thebe_core/creator/seed.py:39-172 | a seed without reuse changes no customer row that is there; with reuse only its own tenant's author gets the seed's data, under the identity it had; the planting fills in exactly what is missing |
| ResetDemo.ResetSeedsExactly | thebe_core/creator/service.py:885-942 | an uninterrupted reset succeeds if and only if no other tenant holds a seed id, and exactly then leaves the seed book, editions, document and mind, and nothing else of the tenant's books and what hangs off them |
| ResetDemo.ResetKeepsInv | thebe_core/creator/service.py:885-942 | an uninterrupted reset keeps the invariant, failed or not |
| ResetDemo.ResetLeavesOthersAlone | thebe_core/creator/service.py:885-942 | whether it succeeds or not, no row of another tenant is lost or changed |
| ResetDemo.SecondResetChangesNothing | thebe_core/creator/service.py:885-942 | a second uninterrupted reset changes nothing, failed or not |
| ResetDemo.CreatorDatabase.Purge | thebe_core/creator/service.py:888-932 | the delete session with its two guards is the seven stages, keys intact in between |
| ResetDemo.CreatorDatabase.SeedCreatortrust | thebe_core/creator/seed.py:39-172 | the two seed sessions: the author is created if missing, written over only if it is the tenant's own and reuse is asked for, and no other customer row changes; then exactly the missing ones of the mind, book, editions and document are added and every row there stays; if it raises, none of these tables changes |
| ResetDemo.CreatorDatabase.ResetDemo | thebe_core/creator/service.py:885-942 | the whole reset, with the deletes committed when the seed fails |
| Jobs.EveryRunStaysInBudget | thebe_core/jobs.py:39-194 | in every reachable state, for any integer max_retries: failed jobs have used exactly max(1, max_retries) attempts, all others fewer; exactly the row the worker executes is running, so never two |
| Jobs.OlderDoneAtSelection | thebe_core/jobs.py:108-117 | when a job is selected, every older one is completed or failed |
| Jobs.OlderDoneAtStartExactly | thebe_core/jobs.py:108-151 | when the selected job is started, in a session of its own, an older one is completed or failed if and only if it was not requeued in between |
| Jobs.RetryIsOvertaken | thebe_core/jobs.py:90-151 | a concrete run in which a retried older job is pending while the newer one starts |
| Jobs.RemainingAfterUpdate | thebe_core/jobs.py:143-194 | how one row's change moves the executions left |
| Jobs.RetryRestoresAttempts | thebe_core/jobs.py:90-106 | a retried job has all its max(1, max_retries) attempts again: it fails for good with exactly as many failures as a fresh one |
| Jobs.FailsAtLast | thebe_core/jobs.py:173-194 | a job that keeps failing is pending until its attempts are used up, and then failed |
| Jobs.JobService.RetryJob | thebe_core/jobs.py:90-106 | requeues exactly a failed job of the tenant: pending, no attempt used, no error, nothing else changed |
| Jobs.JobService.NextPending | thebe_core/jobs.py:108-117 | a pending row created before every other pending one, or none exactly when nothing is pending |
| Jobs.JobService.StartJob | thebe_core/jobs.py:143-157 | starts the row if it is still there and pending, whatever else the queue holds |
| Jobs.JobService.RecordOutcome | thebe_core/jobs.py:166-194 | a success completes the executed row and clears its error; a failure counts, keeps the error, and fails it exactly with the last attempt; nothing else changes |
| Jobs.JobService.ProcessJob | thebe_core/jobs.py:143-194 | both sessions with nothing in between |
| Jobs.JobService.Drain | thebe_core/jobs.py:119-194 | without arrivals the worker empties the queue within the attempts the pending jobs have left (exactly these if every execution fails), in creation order |
| Breaker.CircuitBreaker.Call | thebe_core/auth/provider.py:28-46 | open refuses unless more than the recovery time has passed since the last failure, any other state calls through; a success closes and clears, a failure counts, is timed and opens from the threshold on; what the caller sees |
| Breaker.FailuresAreConsecutive | thebe_core/auth/provider.py:14-46 | the counter is the number of failures since the last success; between calls closed means below the threshold |
| Breaker.ThresholdMustBePositive | thebe_core/auth/provider.py:17-46 | that reading holds in every run if and only if the threshold is at least one |
| Breaker.ReachesExactly | thebe_core/auth/provider.py:14-46 | over every run, by the attempts that reached the provider alone: the next one reaches it if and only if the last threshold of these did not all fail, or it starts more than the recovery time after the last one ended |
| Breaker.OutageEnds | thebe_core/auth/provider.py:28-46 | after an outage the first call past the recovery time gets through, and if it succeeds the breaker is closed and the next call gets through too |
| Breaker.CallsAreSpaced | thebe_core/auth/provider.py:28-46 | in an outage, from the threshold on, more than the recovery time passes before each call |
| Breaker.OutageCallRate | thebe_core/auth/provider.py:14-46 | in an outage at most threshold + floor(T / recovery) calls reach the provider in any window of length T |
| Slug.NormalizedIsSlug | thebe_core/api.py:282-288 | a normalized name is a slug, and is rejected only for its length |
| Slug.SlugJoinsWords | thebe_core/api.py:282-288 | the slug of a name is its words of lower-case letters and digits joined by single hyphens, and a name without any is refused |
| Slug.TextHasWords | thebe_core/api.py:282-288 | every name splits into such words and gaps |
| Slug.SlugIsFixed | thebe_core/api.py:282-288 | a slug normalizes to itself |
| Slug.NormalizeIsIdempotent | thebe_core/api.py:282-288 | normalizing twice is normalizing once |
| Slug.PatternIsSlug | thebe_core/api.py:279 | the pattern, read as a grammar, is: lower-case letters, digits and single inner hyphens |
| Slug.AcceptedExactly | thebe_core/api.py:291-298 | validation accepts exactly slugs of at most 63 characters, the last of which may be a newline after the slug |
| Slug.NewlineSlipsThrough | thebe_core/api.py:279-298 | such an accepted string that is no slug |
| Slug.FrontendAgrees | frontend/src/pages/CreateTenant.tsx:24 | the frontend's derivation, which strips one hyphen per end and no spaces, gives the same slug, and is empty exactly when the backend refuses |
| Slug.OneHyphenIsAll | frontend/src/pages/CreateTenant.tsx:24 | after the collapse one hyphen per end is all there is |
| HtmlText.CleanIsNormal | thebe_core/minds/client.py:102-107 | no blank before a newline, no three newlines in a row, no two adjacent blanks, nothing to strip: no later rewrite undoes an earlier one |
| HtmlText.FixedExactlyWhenNormal | thebe_core/minds/client.py:102-107 | a text is a fixed point of the pipeline if and only if it has these properties |
| HtmlText.CleanIsIdempotent | thebe_core/minds/client.py:102-107 | cleaning twice is cleaning once |
| HtmlText.CleanKeepsInk | thebe_core/minds/client.py:102-107 | every character that is not whitespace is kept, in order |
| HtmlText.TagsKeepInk | thebe_core/minds/client.py:85-107 | tags neither lose nor invent text: the result has exactly the data's non-whitespace characters, in order, and one bullet per list item |
| HtmlLines.LinesExactly | thebe_core/minds/client.py:47-107 | two neighbouring characters that are not whitespace end up on different lines if and only if between them there is a break, block or list item tag or a newline in the text |
| HtmlLines.TagSeparatesLines | thebe_core/minds/client.py:47-107 | in particular text before and after such a tag does |
| HtmlLines.CleanKeepsBreaks | thebe_core/minds/client.py:102-107 | the three rewrites and the strip keep exactly the line breaks between such characters |
| HtmlLines.GapsExactly | thebe_core/minds/client.py:102-107 | two such characters are apart, by whitespace of any kind, exactly when they were before: no words run together |
| HtmlText.HtmlToText.Text | thebe_core/minds/client.py:102-107 | the joined parts in normal form, with all their ink |

## Left out

- Sessions, encryption, password hashing, tokens, HTTP routing, rate limits, metrics and logging: foreign libraries or wiring.
- The network side of the Minds client, polling, ZIP files, templates and uploads: input and output; what they return is a parameter.
- Regular expressions inside the privacy and guarantee predicates: their answers are arbitrary booleans.
- Plain setters and single-branch lookups (controls, obligations, evidence, tasks, books, editions): easy members.
- `_order_expr`: it always falls back to descending creation time, so nothing is claimed about ascending order.
- Engine.Condition: a `conditions` entry that is itself a string or a dict is taken as a type error, where Python would iterate over its characters or keys.
- Rules.CollectActive: evidence times arrive parsed; a malformed time string, which raises in the source, does not occur.
- Rules.Evaluate: evaluation ids and time stamps of a result are not modelled.
- Publishing.ContextReadsBack: an edition or author context that is not a dict, which raises in the source, does not occur.
- Score.ComputeScore: the division is exact; a binary quotient that lands on the other side of a tie is not modelled.
- Findings.FindingService.UpdateFinding: due dates, closure evidence and time stamps are not modelled; nor is that an update and its log entry commit separately, so the replay law is about updates whose log entries are in order.
- Timeline.GetCustomerTimeline: titles and details of events are not modelled; a negative limit, which the database rejects, does not occur.
- DocumentVersions.EveryRunIsSound: a document gets one root; `create_document_version` itself does not check that, and audit events are not modelled.
- AssetService.CreatorService.EvaluateAsset: the verdict is a parameter here; Governance.LabelEndToEnd says which one it is. An asset's book, author and edition lookups are reduced to the book's tenant.
- Assets.EveryRunKeepsInv: a reset is its delete session and its planting session here; that an id never changes hands is assumed of random ids and, for the seed's, taken from ResetRuns.EveryRunKeepsInv.
- AssetService.CreatorService.BuildPackage: one boolean stands for the destination's validation.
- ResetDemo.CreatingKeepsInv: the guard of an operation is what its lookups and the database's constraints allow at the insert, since a row that was looked up may be deleted but never changes hands; random ids are taken to be fresh and none of the fixed ones; columns other than keys and tenants are one or two strings, and updates, which cannot change keys or tenants, are not operations.
- ResetDemo.CreatorDatabase.ResetDemo: the file written for the seed document is not modelled.
- Jobs.JobService.Drain: the wake-up event's timing, a worker interrupted between start and end (the job stays running), and database errors in the loop are not modelled.
- Jobs.EveryRunStaysInBudget: one worker that is not interrupted; see the line above.
- AssetService.CreatorService.CreateCampaign: its lookups and its insert are one step here; ResetDemo.CreatingKeepsInv has what the database lets through when rows have gone in between.
- Breaker.CircuitBreaker.Call: calls come one after the other; calls that overlap in threads are not modelled.
- Slug.NormalizedIsSlug: Unicode lower-casing and whitespace are any functions that treat lower-case letters, digits and hyphens as expected.
- HtmlText.HtmlToText.Text: tag parsing and character references belong to the library parser; `format_mind_reply` around it is not modelled.
