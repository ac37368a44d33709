/**
  The governance mapping of the creator service: engine results softened to review, violations
  repaired, and the allow / review / block label read off.
 */
module Governance {
  import opened Engine
  import opened Json
  import opened Publishing
  import opened Rules
  import Score
  import opened Wrappers

  const REVIEW_RULES := {"CREATOR-CLAIM-001", "CREATOR-VOICE-001"}
  const PLATFORM_RULE := "CREATOR-PLATFORM-001"

  function MappedStatus(r: RuleResult, isbnMissing: bool): string {
    if r.status == "FAIL" && (r.ruleId in REVIEW_RULES || (r.ruleId == PLATFORM_RULE && !isbnMissing))
    then "PARTIAL"
    else r.status
  }

  function MappedResults(results: seq<RuleResult>, isbnMissing: bool): (m: seq<RuleResult>)
    ensures |m| == |results|
    ensures forall i | 0 <= i < |m| :: m[i] == results[i].(status := MappedStatus(results[i], isbnMissing))
  {
    seq(|results|, i requires 0 <= i < |results| => results[i].(status := MappedStatus(results[i], isbnMissing)))
  }

  predicate HasViolation(violations: seq<Violation>, ruleId: string) {
    exists i | 0 <= i < |violations| :: violations[i].ruleId == ruleId
  }

  predicate FailsRule(results: seq<RuleResult>, ruleId: string) {
    exists i | 0 <= i < |results| :: results[i].ruleId == ruleId && Failing(results[i].status)
  }

  /** Violations whose rule still fails. */
  function StillFailing(violations: seq<Violation>, results: seq<RuleResult>): seq<Violation> {
    if violations == [] then []
    else
      var last := violations[|violations| - 1];
      StillFailing(violations[..|violations| - 1], results) + if FailsRule(results, last.ruleId) then [last] else []
  }

  /** Add a violation for each failing rule that has none. */
  function Completed(violations: seq<Violation>, results: seq<RuleResult>): seq<Violation> {
    if results == [] then violations
    else
      var before, last := Completed(violations, results[..|results| - 1]), results[|results| - 1];
      if Failing(last.status) && !HasViolation(before, last.ruleId) then before + [ToViolation(last)] else before
  }

  function Mapped(result: EvaluationResult, isbnMissing: bool): EvaluationResult {
    var mapped := MappedResults(result.ruleResults, isbnMissing);
    result.(ruleResults := mapped,
            violations := Completed(StillFailing(result.violations, mapped), mapped),
            requiredActions := FirstOccurrences(ActionsOf(mapped)),
            entityType := "asset")
  }

  /** The first loop of _map_governance. */
  method MapRules(results: seq<RuleResult>, isbnMissing: bool) returns (mapped: seq<RuleResult>)
    ensures mapped == MappedResults(results, isbnMissing)
    ensures |mapped| == |results| && forall i | 0 <= i < |mapped| ::
              && mapped[i].(status := results[i].status) == results[i]
              && (mapped[i].status != results[i].status <==>
                    && results[i].status == "FAIL"
                    && (results[i].ruleId in {"CREATOR-CLAIM-001", "CREATOR-VOICE-001"}
                        || (results[i].ruleId == "CREATOR-PLATFORM-001" && !isbnMissing)))
              && (mapped[i].status != results[i].status ==> mapped[i].status == "PARTIAL")
  {
    mapped := [];
    for i := 0 to |results|
      invariant mapped == MappedResults(results, isbnMissing)[..i]
    {
      var status := results[i].status;
      if status == "FAIL" && results[i].ruleId in REVIEW_RULES {
        status := "PARTIAL";
      }
      if status == "FAIL" && results[i].ruleId == PLATFORM_RULE && !isbnMissing {
        status := "PARTIAL";
      }
      mapped := mapped + [results[i].(status := status)];
    }
  }

  /** The filter on the violations, and the loop that adds the missing ones. */
  method RepairViolations(given: seq<Violation>, mapped: seq<RuleResult>) returns (violations: seq<Violation>)
    ensures violations == Completed(StillFailing(given, mapped), mapped)
  {
    violations := [];
    for i := 0 to |given|
      invariant violations == StillFailing(given[..i], mapped)
    {
      assert given[..i + 1][..i] == given[..i];
      if FailsRule(mapped, given[i].ruleId) {
        violations := violations + [given[i]];
      }
    }
    assert given[..|given|] == given;
    ghost var kept := violations;
    for i := 0 to |mapped|
      invariant violations == Completed(kept, mapped[..i])
    {
      assert mapped[..i + 1][..i] == mapped[..i];
      if Failing(mapped[i].status) && !HasViolation(violations, mapped[i].ruleId) {
        violations := violations + [ToViolation(mapped[i])];
      }
    }
    assert mapped[..|mapped|] == mapped;
  }

  method MapGovernance(result: EvaluationResult, context: Attributes, t: TextRules) returns (r: EvaluationResult)
    ensures r == Mapped(result, IsbnMissing(context, t))
  {
    var mapped := MapRules(result.ruleResults, IsbnMissing(context, t));
    var violations := RepairViolations(result.violations, mapped);
    var actions: seq<string> := [];
    for i := 0 to |mapped|
      invariant actions == ActionsOf(mapped[..i])
    {
      assert mapped[..i + 1][..i] == mapped[..i];
      if Failing(mapped[i].status) {
        actions := actions + mapped[i].recommendedActions;
      }
    }
    assert mapped[..|mapped|] == mapped;
    r := result.(ruleResults := mapped, violations := violations, requiredActions := FirstOccurrences(actions),
                 entityType := "asset");
  }

  function Label(results: seq<RuleResult>): string {
    if exists i | 0 <= i < |results| :: results[i].status == "FAIL" then "block"
    else if exists i | 0 <= i < |results| :: results[i].status == "PARTIAL" then "review"
    else "allow"
  }

  // ---------------------------------------------------------------------------
  // Violations and required actions
  // ---------------------------------------------------------------------------

  lemma {:induction false} StillFailingIds(violations: seq<Violation>, results: seq<RuleResult>, ruleId: string)
    ensures HasViolation(StillFailing(violations, results), ruleId)
       <==> HasViolation(violations, ruleId) && FailsRule(results, ruleId)
  {
    if violations != [] {
      var k := |violations| - 1;
      StillFailingIds(violations[..k], results, ruleId);
      assert violations == violations[..k] + [violations[k]];
      HasAppended(violations[..k], violations[k], ruleId);
      var kept := StillFailing(violations[..k], results);
      assert kept + [] == kept;
      HasAppended(kept, violations[k], ruleId);
    }
  }

  lemma {:induction false} HasAppended(violations: seq<Violation>, v: Violation, ruleId: string)
    ensures HasViolation(violations + [v], ruleId) <==> HasViolation(violations, ruleId) || v.ruleId == ruleId
  {
    var all := violations + [v];
    assert all[|violations|] == v && forall i | 0 <= i < |violations| :: all[i] == violations[i];
  }

  lemma {:induction false} FailsAppended(results: seq<RuleResult>, r: RuleResult, ruleId: string)
    ensures FailsRule(results + [r], ruleId) <==> FailsRule(results, ruleId) || (r.ruleId == ruleId && Failing(r.status))
  {
    var all := results + [r];
    assert all[|results|] == r && forall i | 0 <= i < |results| :: all[i] == results[i];
  }

  lemma {:induction false} CompletedIds(violations: seq<Violation>, results: seq<RuleResult>, ruleId: string)
    ensures HasViolation(Completed(violations, results), ruleId)
       <==> HasViolation(violations, ruleId) || FailsRule(results, ruleId)
  {
    if results != [] {
      var k := |results| - 1;
      CompletedIds(violations, results[..k], ruleId);
      assert results == results[..k] + [results[k]];
      FailsAppended(results[..k], results[k], ruleId);
      HasAppended(Completed(violations, results[..k]), ToViolation(results[k]), ruleId);
    }
  }

  lemma {:induction false} MappingKeepsFailing(results: seq<RuleResult>, isbnMissing: bool, ruleId: string)
    ensures FailsRule(MappedResults(results, isbnMissing), ruleId) <==> FailsRule(results, ruleId)
  {
    var mapped := MappedResults(results, isbnMissing);
    assert forall i | 0 <= i < |results| :: Failing(mapped[i].status) <==> Failing(results[i].status);
  }

  /** On any result, the mapped violations name exactly the rules with a FAIL or PARTIAL result. */
  lemma {:induction false} ViolationsMatchFailures(result: EvaluationResult, isbnMissing: bool, ruleId: string)
    ensures HasViolation(Mapped(result, isbnMissing).violations, ruleId) <==> FailsRule(result.ruleResults, ruleId)
  {
    var mapped := MappedResults(result.ruleResults, isbnMissing);
    StillFailingIds(result.violations, mapped, ruleId);
    CompletedIds(StillFailing(result.violations, mapped), mapped, ruleId);
    MappingKeepsFailing(result.ruleResults, isbnMissing, ruleId);
  }

  lemma {:induction false} NothingDropped(violations: seq<Violation>, results: seq<RuleResult>)
    requires forall i | 0 <= i < |violations| :: FailsRule(results, violations[i].ruleId)
    ensures StillFailing(violations, results) == violations
  {
    if violations != [] {
      var k := |violations| - 1;
      NothingDropped(violations[..k], results);
      assert violations == violations[..k] + [violations[k]];
    }
  }

  lemma {:induction false} NothingAdded(violations: seq<Violation>, results: seq<RuleResult>)
    requires forall i | 0 <= i < |results| && Failing(results[i].status) :: HasViolation(violations, results[i].ruleId)
    ensures Completed(violations, results) == violations
  {
    if results != [] {
      NothingAdded(violations, results[..|results| - 1]);
    }
  }

  /** Violations that already name exactly the failing rules survive the repair untouched. */
  lemma {:induction false} NothingToRepair(violations: seq<Violation>, results: seq<RuleResult>)
    requires forall id :: HasViolation(violations, id) <==> FailsRule(results, id)
    ensures Completed(StillFailing(violations, results), results) == violations
  {
    forall i | 0 <= i < |violations| ensures FailsRule(results, violations[i].ruleId) {
      assert HasViolation(violations, violations[i].ruleId);
    }
    NothingDropped(violations, results);
    forall i | 0 <= i < |results| && Failing(results[i].status) ensures HasViolation(violations, results[i].ruleId) {
      assert FailsRule(results, results[i].ruleId);
    }
    NothingAdded(violations, results);
  }

  lemma {:induction false} EngineViolationIds(results: seq<RuleResult>, ruleId: string)
    ensures HasViolation(ViolationsOf(results), ruleId) <==> FailsRule(results, ruleId)
  {
    if results != [] {
      var k := |results| - 1;
      EngineViolationIds(results[..k], ruleId);
      assert results == results[..k] + [results[k]];
      FailsAppended(results[..k], results[k], ruleId);
      var before := ViolationsOf(results[..k]);
      assert before + [] == before;
      HasAppended(before, ToViolation(results[k]), ruleId);
    }
  }

  lemma {:induction false} MappingKeepsActions(results: seq<RuleResult>, isbnMissing: bool)
    ensures ActionsOf(MappedResults(results, isbnMissing)) == ActionsOf(results)
  {
    if results != [] {
      var k := |results| - 1;
      MappingKeepsActions(results[..k], isbnMissing);
      assert MappedResults(results, isbnMissing)[..k] == MappedResults(results[..k], isbnMissing);
    }
  }

  /** What the engine itself produces keeps its violations and required actions. */
  lemma {:induction false} EngineOutputIsKept(vertical: string, entityType: string, results: seq<RuleResult>,
                                              isbnMissing: bool)
    ensures var result := Assembled(vertical, entityType, results);
            && Mapped(result, isbnMissing).violations == result.violations
            && Mapped(result, isbnMissing).requiredActions == result.requiredActions
  {
    var mapped := MappedResults(results, isbnMissing);
    forall id ensures HasViolation(ViolationsOf(results), id) <==> FailsRule(mapped, id) {
      EngineViolationIds(results, id);
      MappingKeepsFailing(results, isbnMissing, id);
    }
    NothingToRepair(ViolationsOf(results), mapped);
    MappingKeepsActions(results, isbnMissing);
  }

  /** Mapping a mapped result changes nothing. */
  lemma {:induction false} MappingIsIdempotent(result: EvaluationResult, isbnMissing: bool)
    ensures Mapped(Mapped(result, isbnMissing), isbnMissing) == Mapped(result, isbnMissing)
  {
    var once := Mapped(result, isbnMissing);
    assert MappedResults(once.ruleResults, isbnMissing) == once.ruleResults;
    forall id ensures HasViolation(once.violations, id) <==> FailsRule(once.ruleResults, id) {
      ViolationsMatchFailures(result, isbnMissing, id);
      MappingKeepsFailing(result.ruleResults, isbnMissing, id);
    }
    NothingToRepair(once.violations, once.ruleResults);
  }

  /** The stored score is the engine's; recomputed from the mapped statuses it could only be higher. */
  lemma {:induction false} StoredScoreIsConservative(vertical: string, entityType: string, results: seq<RuleResult>,
                                                     isbnMissing: bool)
    ensures var stored := Mapped(Assembled(vertical, entityType, results), isbnMissing);
            var recomputed := Score.ScoreOf(Statuses(stored.ruleResults));
            && (stored.score.Some? <==> recomputed.Some?)
            && (stored.score.Some? ==> stored.score.value <= recomputed.value)
  {
    Score.ImprovingNeverLowers(Statuses(results), Statuses(MappedResults(results, isbnMissing)));
  }

  // ---------------------------------------------------------------------------
  // The shipped pack, end to end
  // ---------------------------------------------------------------------------

  /** A rule of the shipped pack: one named check, whatever its description and recommended actions. */
  predicate ChecksWith(rule: Rule, ruleId: string, check: string) {
    rule.ruleId == ruleId && rule.appliesWhen == Null && rule.check == Str(check) && !rule.evidenceRequired
  }

  predicate IsCreatorPack(pack: seq<Rule>) {
    && |pack| == 5
    && ChecksWith(pack[0], "CREATOR-RIGHTS-001", "rights_declared")
    && ChecksWith(pack[1], "CREATOR-PRIVACY-001", "no_undeclared_pii")
    && ChecksWith(pack[2], "CREATOR-CLAIM-001", "no_unsupported_guarantee")
    && ChecksWith(pack[3], "CREATOR-VOICE-001", "voice_aligned")
    && ChecksWith(pack[4], PLATFORM_RULE, "platform_metadata_ok")
  }

  const CHECKS := {"rights_declared", "no_undeclared_pii", "no_unsupported_guarantee", "voice_aligned",
                   "platform_metadata_ok"}

  /** The checks are registered; the platform one answers as the function above, the rest are any functions. */
  predicate Registered(ps: Predicates, context: Attributes, t: TextRules) {
    CHECKS <= ps.named.Keys && ps.named["platform_metadata_ok"](context) == PlatformMetadataOk(context, t)
  }

  lemma {:induction false} PredicateRule(rule: Rule, name: string, context: Attributes,
                                         evidence: map<string, seq<Evidence>>, now: int, ps: Predicates)
    requires rule.appliesWhen == Null && rule.check == Str(name) && !rule.evidenceRequired
    requires "controls" !in context && name in ps.named
    ensures var r := ControlRule(rule, context, ControlsIn(context), evidence, now, ps);
            r.Ok? && r.value.ruleId == rule.ruleId && r.value.status == if ps.named[name](context) then "PASS" else "FAIL"
  {
    assert ControlAnswer(rule.controlKey, ControlsIn(context)) == Ok(Null);
  }

  /** The label evaluate_asset stores for a context. */
  ghost function StoredLabel(pack: seq<Rule>, context: Attributes, evidence: map<string, seq<Evidence>>, now: int,
                             ps: Predicates, t: TextRules): Result<string>
  {
    match ResultsOf(pack, context, ControlsIn(context), evidence, now, ps)
    case Err(error) => Err(error)
    case Ok(results) =>
      Ok(Label(Mapped(Assembled("creator_publishing", "asset", results), IsbnMissing(context, t)).ruleResults))
  }

  /** Evaluating with the shipped pack: exactly when each label comes out. */
  lemma {:induction false} LabelEndToEnd(pack: seq<Rule>, context: Attributes, evidence: map<string, seq<Evidence>>,
                                         now: int, ps: Predicates, t: TextRules)
    requires IsCreatorPack(pack) && "controls" !in context && Registered(ps, context, t)
    ensures StoredLabel(pack, context, evidence, now, ps, t) == Ok(
              if !ps.named["rights_declared"](context) || !ps.named["no_undeclared_pii"](context)
                 || IsbnMissing(context, t) then "block"
              else if !ps.named["no_unsupported_guarantee"](context) || !ps.named["voice_aligned"](context)
                      || !PlatformMetadataOk(context, t) then "review"
              else "allow")
  {
    IsbnMissingFailsPlatform(context, t);
    PackResults(pack, context, evidence, now, ps);
    StoredLabelIs(pack, context, evidence, now, ps, t);
    LabelOfFive(ResultsOf(pack, context, ControlsIn(context), evidence, now, ps).value, IsbnMissing(context, t),
                ps.named["rights_declared"](context), ps.named["no_undeclared_pii"](context),
                ps.named["no_unsupported_guarantee"](context), ps.named["voice_aligned"](context),
                PlatformMetadataOk(context, t));
  }

  lemma {:induction false} StoredLabelIs(pack: seq<Rule>, context: Attributes, evidence: map<string, seq<Evidence>>,
                                         now: int, ps: Predicates, t: TextRules)
    requires ResultsOf(pack, context, ControlsIn(context), evidence, now, ps).Ok?
    ensures StoredLabel(pack, context, evidence, now, ps, t)
         == Ok(Label(MappedResults(ResultsOf(pack, context, ControlsIn(context), evidence, now, ps).value,
                                   IsbnMissing(context, t))))
  {
  }

  lemma {:induction false} IsbnMissingFailsPlatform(context: Attributes, t: TextRules)
    ensures IsbnMissing(context, t) ==> !PlatformMetadataOk(context, t)
  {
  }

  function PassOrFail(holds: bool): string {
    if holds then "PASS" else "FAIL"
  }

  lemma {:induction false} PackResults(pack: seq<Rule>, context: Attributes, evidence: map<string, seq<Evidence>>,
                                       now: int, ps: Predicates)
    requires IsCreatorPack(pack) && "controls" !in context
    requires CHECKS <= ps.named.Keys
    ensures ResultsOf(pack, context, ControlsIn(context), evidence, now, ps).Ok?
    ensures var rs := ResultsOf(pack, context, ControlsIn(context), evidence, now, ps).value;
            && CreatorIds(rs)
            && rs[0].status == PassOrFail(ps.named["rights_declared"](context))
            && rs[1].status == PassOrFail(ps.named["no_undeclared_pii"](context))
            && rs[2].status == PassOrFail(ps.named["no_unsupported_guarantee"](context))
            && rs[3].status == PassOrFail(ps.named["voice_aligned"](context))
            && rs[4].status == PassOrFail(ps.named["platform_metadata_ok"](context))
  {
    PredicateRule(pack[0], "rights_declared", context, evidence, now, ps);
    PredicateRule(pack[1], "no_undeclared_pii", context, evidence, now, ps);
    PredicateRule(pack[2], "no_unsupported_guarantee", context, evidence, now, ps);
    PredicateRule(pack[3], "voice_aligned", context, evidence, now, ps);
    PredicateRule(pack[4], "platform_metadata_ok", context, evidence, now, ps);
    AllRulesRun(pack, context, ControlsIn(context), evidence, now, ps);
    forall i: nat | i < 5
      ensures ControlRule(pack[i], context, ControlsIn(context), evidence, now, ps)
           == Ok(ResultsOf(pack, context, ControlsIn(context), evidence, now, ps).value[i])
    {
      ResultAt(pack, context, ControlsIn(context), evidence, now, ps, i);
    }
  }

  predicate CreatorIds(rs: seq<RuleResult>) {
    && |rs| == 5 && rs[0].ruleId == "CREATOR-RIGHTS-001" && rs[1].ruleId == "CREATOR-PRIVACY-001"
    && rs[2].ruleId == "CREATOR-CLAIM-001" && rs[3].ruleId == "CREATOR-VOICE-001" && rs[4].ruleId == PLATFORM_RULE
  }

  lemma {:induction false} LabelOfFive(rs: seq<RuleResult>, isbnMissing: bool, rights: bool, privacy: bool,
                                       claims: bool, voice: bool, platform: bool)
    requires CreatorIds(rs) && (isbnMissing ==> !platform)
    requires rs[0].status == PassOrFail(rights) && rs[1].status == PassOrFail(privacy)
    requires rs[2].status == PassOrFail(claims) && rs[3].status == PassOrFail(voice)
    requires rs[4].status == PassOrFail(platform)
    ensures Label(MappedResults(rs, isbnMissing)) ==
              if !rights || !privacy || isbnMissing then "block"
              else if !claims || !voice || !platform then "review"
              else "allow"
  {
    var m := MappedResults(rs, isbnMissing);
    assert m[0].status == rs[0].status && m[1].status == rs[1].status;
    assert m[2].status == if claims then "PASS" else "PARTIAL";
    assert m[3].status == if voice then "PASS" else "PARTIAL";
    assert m[4].status == if platform then "PASS" else if isbnMissing then "FAIL" else "PARTIAL";
  }

  /** The same for the context evaluate_asset itself builds, from an author and an edition if the book has one. */
  lemma {:induction false} AssetLabelEndToEnd(pack: seq<Rule>, edition: Option<Edition>, author: Attributes,
                                              authorName: string, asset: Attributes,
                                              evidence: map<string, seq<Evidence>>, now: int, ps: Predicates, t: TextRules)
    requires IsCreatorPack(pack) && "controls" !in asset && Regular(t)
    requires Registered(ps, AssetContext(edition, author, authorName, asset), t)
    ensures var context := AssetContext(edition, author, authorName, asset);
            StoredLabel(pack, context, evidence, now, ps, t) == Ok(
              if !ps.named["rights_declared"](context) || !ps.named["no_undeclared_pii"](context)
                 || (edition.Some? && IngramIsbnMissing(edition.value, t)) then "block"
              else if !ps.named["no_unsupported_guarantee"](context) || !ps.named["voice_aligned"](context)
                      || !PlatformMetadataOk(context, t) then "review"
              else "allow")
  {
    if edition.Some? {
      ContextReadsBack(edition.value, author, authorName, asset, t);
    } else {
      NoEditionNoIsbn(author, authorName, asset, t);
    }
    LabelEndToEnd(pack, AssetContext(edition, author, authorName, asset), evidence, now, ps, t);
  }
}
