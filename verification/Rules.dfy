/**
  Control rules: how one rule's applicability, recorded answer, check and evidence become a
  status, and how a pack's results become an evaluation.
 */
module Rules {
  import opened Engine
  import opened EngineStability
  import opened Json
  import opened Ordering
  import Score
  import opened Wrappers

  datatype Rule = Rule(
    ruleId: string,
    controlKey: Option<string>,
    obligationKey: Option<string>,
    severity: string,
    description: string,
    appliesWhen: Json,
    check: Json,
    recommendedActions: seq<string>,
    evidenceRequired: bool)

  datatype RuleResult = RuleResult(
    ruleId: string,
    controlKey: Option<string>,
    obligationKey: Option<string>,
    status: string,
    severity: string,
    description: string,
    recommendedActions: seq<string>,
    sourceFields: seq<string>,
    evidenceIds: seq<string>)

  datatype Violation = Violation(
    ruleId: string,
    controlKey: Option<string>,
    obligationKey: Option<string>,
    description: string,
    severity: string,
    recommendedActions: seq<string>,
    sourceFields: seq<string>,
    evidenceIds: seq<string>)

  datatype EvaluationResult = EvaluationResult(
    vertical: string,
    entityType: string,
    score: Option<nat>,
    ruleResults: seq<RuleResult>,
    violations: seq<Violation>,
    requiredActions: seq<string>)

  /** An evidence row: its id, and updated_at or created_at when either is set, in seconds. */
  datatype Evidence = Evidence(id: string, stamp: Option<int>)

  const YEAR := 365 * 24 * 3600

  // ---------------------------------------------------------------------------
  // One rule
  // ---------------------------------------------------------------------------

  predicate Truthy(key: Option<string>) {
    key.Some? && key.value != ""
  }

  /** The recorded answer, Null when there is none. */
  function ControlAnswer(key: Option<string>, controls: Json): Result<Json> {
    if !Truthy(key) then Ok(Null)
    else if !controls.Dict? then Err("AttributeError")
    else if key.value !in controls.entries then Ok(Null)
    else
      match Field(controls.entries[key.value], "answer")
      case None => Ok(Null)
      case Some(answer) => Ok(answer)
  }

  function ActiveIds(rows: seq<Evidence>, now: int): seq<string> {
    if rows == [] then []
    else
      var last := rows[|rows| - 1];
      ActiveIds(rows[..|rows| - 1], now)
      + if last.stamp.None? || last.stamp.value >= now - YEAR then [last.id] else []
  }

  function ActiveEvidenceIds(key: Option<string>, evidence: map<string, seq<Evidence>>, now: int): seq<string> {
    if Truthy(key) && key.value in evidence then ActiveIds(evidence[key.value], now) else []
  }

  /** The status, or the exception, a rule ends with. */
  function Decide(applies: Outcome, answer: Result<Json>, check: Outcome, evidenceMissing: bool): Result<string> {
    match applies
    case Error(error) => Err(error)
    case Unknown => Ok("UNKNOWN")
    case False => Ok("NOT_APPLICABLE")
    case True =>
      if answer.Err? then Err(answer.error)
      else if !answer.value.Null? then
        if Equal(answer.value, Str("unanswered")) || Equal(answer.value, NOT_SURE) then Ok("UNKNOWN")
        else if Equal(answer.value, Str("no")) then Ok("FAIL")
        else if evidenceMissing then Ok("PARTIAL")
        else Ok("PASS")
      else
        match check
        case Error(error) => Err(error)
        case Unknown => Ok("UNKNOWN")
        case False => Ok("FAIL")
        case True => if evidenceMissing then Ok("PARTIAL") else Ok("PASS")
  }

  function Applies(rule: Rule, context: Attributes, ps: Predicates): Outcome {
    if rule.appliesWhen.Null? then True else EvaluateCondition(rule.appliesWhen, context, ps)
  }

  ghost function SortedPaths(paths: set<string>): (s: seq<string>)
    ensures StrictlySorted(s) && forall p :: p in s <==> p in paths
  {
    if paths == {} then []
    else
      var p :| p in paths;
      InsertSorted(p, SortedPaths(paths - {p}))
  }

  ghost function SourceFields(rule: Rule, answered: bool): seq<string> {
    var read := SortedPaths(Paths(rule.appliesWhen)) + SortedPaths(Paths(rule.check));
    if answered && Truthy(rule.controlKey)
    then SortedSet(read + ["controls." + rule.controlKey.value + ".answer"])
    else read
  }

  function ResultWith(rule: Rule, status: string, sourceFields: seq<string>, evidenceIds: seq<string>): RuleResult {
    RuleResult(rule.ruleId, rule.controlKey, rule.obligationKey, status, rule.severity, rule.description,
               rule.recommendedActions, sourceFields, evidenceIds)
  }

  /** What a rule reports, given the outcomes of its two conditions. */
  ghost function Report(rule: Rule, applies: Outcome, check: Outcome, controls: Json,
                        evidence: map<string, seq<Evidence>>, now: int): Result<RuleResult>
  {
    var answer := ControlAnswer(rule.controlKey, controls);
    var ids := ActiveEvidenceIds(rule.controlKey, evidence, now);
    match Decide(applies, answer, check, rule.evidenceRequired && ids == [])
    case Err(error) => Err(error)
    case Ok(status) =>
      var answered := applies.True? && answer.Ok? && !answer.value.Null?;
      Ok(ResultWith(rule, status, SourceFields(rule, answered), if status == "PASS" then ids else []))
  }

  ghost function ControlRule(rule: Rule, context: Attributes, controls: Json, evidence: map<string, seq<Evidence>>,
                             now: int, ps: Predicates): Result<RuleResult>
  {
    Report(rule, Applies(rule, context, ps), EvaluateCondition(rule.check, context, ps), controls, evidence, now)
  }

  method CollectActive(key: Option<string>, evidence: map<string, seq<Evidence>>, now: int) returns (ids: seq<string>)
    ensures ids == ActiveEvidenceIds(key, evidence, now)
  {
    ids := [];
    if !Truthy(key) || key.value !in evidence {
      return;
    }
    var rows := evidence[key.value];
    for i := 0 to |rows|
      invariant ids == ActiveIds(rows[..i], now)
    {
      assert rows[..i + 1][..i] == rows[..i];
      if rows[i].stamp.None? || rows[i].stamp.value >= now - YEAR {
        ids := ids + [rows[i].id];
      }
    }
    assert rows[..|rows|] == rows;
  }

  /** The engine's own sequence of early returns. */
  method EvaluateControlRule(rule: Rule, context: Attributes, controls: Json, evidence: map<string, seq<Evidence>>,
                             now: int, ps: Predicates) returns (r: Result<RuleResult>)
    ensures r == ControlRule(rule, context, controls, evidence, now, ps)
  {
    var applies := True;
    if !rule.appliesWhen.Null? {
      applies := Condition(rule.appliesWhen, context, ps);
    }
    if applies.Error? {
      return Err(applies.error);
    }
    var read := ReadPaths(rule);
    if applies.Unknown? {
      return Ok(ResultWith(rule, "UNKNOWN", read, []));
    }
    if applies.False? {
      return Ok(ResultWith(rule, "NOT_APPLICABLE", read, []));
    }
    r := EvaluateApplicable(rule, context, controls, evidence, now, ps, read);
  }

  /** The part after the applicability checks. */
  method EvaluateApplicable(rule: Rule, context: Attributes, controls: Json, evidence: map<string, seq<Evidence>>,
                            now: int, ps: Predicates, paths: seq<string>) returns (r: Result<RuleResult>)
    requires paths == SourceFields(rule, false)
    ensures r == Report(rule, True, EvaluateCondition(rule.check, context, ps), controls, evidence, now)
  {
    var read := paths;
    var answer := ControlAnswer(rule.controlKey, controls);
    if answer.Err? {
      return Err(answer.error);
    }
    var ids := CollectActive(rule.controlKey, evidence, now);
    if answer.value.Null? {
      var check := Condition(rule.check, context, ps);
      r := FromCheck(rule, check, read, ids);
    } else {
      read := SortedSet(read + ["controls." + rule.controlKey.value + ".answer"]);
      var result := FromAnswer(rule, answer.value, read, ids);
      r := Ok(result);
    }
  }

  method ReadPaths(rule: Rule) returns (read: seq<string>)
    ensures read == SourceFields(rule, false)
  {
    var before := CollectPaths(rule.appliesWhen);
    var inCheck := CollectPaths(rule.check);
    SortedIsUnique(before, SortedPaths(Paths(rule.appliesWhen)));
    SortedIsUnique(inCheck, SortedPaths(Paths(rule.check)));
    read := before + inCheck;
  }

  /** A recorded answer drives the status. */
  method FromAnswer(rule: Rule, answer: Json, read: seq<string>, ids: seq<string>) returns (r: RuleResult)
    requires !answer.Null?
    ensures exists status :: Decide(True, Ok(answer), Unknown, rule.evidenceRequired && ids == []) == Ok(status)
                             && r == ResultWith(rule, status, read, if status == "PASS" then ids else [])
  {
    ghost var decided := Decide(True, Ok(answer), Unknown, rule.evidenceRequired && ids == []);
    if Equal(answer, Str("unanswered")) || Equal(answer, NOT_SURE) {
      assert decided == Ok("UNKNOWN");
      return ResultWith(rule, "UNKNOWN", read, []);
    }
    if Equal(answer, Str("no")) {
      assert decided == Ok("FAIL");
      return ResultWith(rule, "FAIL", read, []);
    }
    if rule.evidenceRequired && ids == [] {
      assert decided == Ok("PARTIAL");
      return ResultWith(rule, "PARTIAL", read, []);
    }
    assert decided == Ok("PASS");
    r := ResultWith(rule, "PASS", read, ids);
  }

  /** Without one, the check does. */
  method FromCheck(rule: Rule, check: Outcome, read: seq<string>, ids: seq<string>) returns (r: Result<RuleResult>)
    ensures match Decide(True, Ok(Null), check, rule.evidenceRequired && ids == [])
            case Err(error) => r == Err(error)
            case Ok(status) => r == Ok(ResultWith(rule, status, read, if status == "PASS" then ids else []))
  {
    match check
    case Error(error) => return Err(error);
    case Unknown => return Ok(ResultWith(rule, "UNKNOWN", read, []));
    case False => return Ok(ResultWith(rule, "FAIL", read, []));
    case True =>
      if rule.evidenceRequired && ids == [] {
        return Ok(ResultWith(rule, "PARTIAL", read, []));
      }
      return Ok(ResultWith(rule, "PASS", read, ids));
  }

  // ---------------------------------------------------------------------------
  // Final statuses and complete source fields
  // ---------------------------------------------------------------------------

  /** In this context the rule's evaluation comes to a comparison that does not fit. */
  ghost predicate RuleReachesMisfit(rule: Rule, context: Attributes, controls: Json, ps: Predicates) {
    || (!rule.appliesWhen.Null? && ReachesMisfit(rule.appliesWhen, context, ps))
    || (Applies(rule, context, ps).True? && ControlAnswer(rule.controlKey, controls) == Ok(Null)
        && ReachesMisfit(rule.check, context, ps))
  }

  /**
    With answers and evidence held fixed, a result that is not UNKNOWN is lost as information arrives if and only if
    the rule's evaluation now comes to a comparison that does not fit; it then raises.
   */
  lemma {:induction false} ResultIsLostExactly(rule: Rule, c: Attributes, d: Attributes, controls: Json,
                                               evidence: map<string, seq<Evidence>>, now: int, ps: Predicates)
    requires Monotone(rule.appliesWhen, c) && Monotone(rule.check, c) && Informs(Dict(c), Dict(d))
    requires ControlRule(rule, c, controls, evidence, now, ps).Ok?
    requires ControlRule(rule, c, controls, evidence, now, ps).value.status != "UNKNOWN"
    ensures ControlRule(rule, d, controls, evidence, now, ps) != ControlRule(rule, c, controls, evidence, now, ps)
       <==> RuleReachesMisfit(rule, d, controls, ps)
    ensures RuleReachesMisfit(rule, d, controls, ps) ==> ControlRule(rule, d, controls, evidence, now, ps).Err?
  {
    DefiniteIsKept(rule.appliesWhen, c, d, ps);
    DefiniteIsKept(rule.check, c, d, ps);
    RaisesExactly(rule.appliesWhen, c, d, ps);
    RaisesExactly(rule.check, c, d, ps);
    ReportIsLostExactly(rule, Applies(rule, c, ps), EvaluateCondition(rule.check, c, ps), Applies(rule, d, ps),
                        EvaluateCondition(rule.check, d, ps), controls, evidence, now);
  }

  /** Where every comparison fits the new context, a result that is not UNKNOWN is final. */
  lemma {:induction false} ResultIsFinal(rule: Rule, c: Attributes, d: Attributes, controls: Json,
                                         evidence: map<string, seq<Evidence>>, now: int, ps: Predicates)
    requires Monotone(rule.appliesWhen, c) && Monotone(rule.check, c) && Informs(Dict(c), Dict(d))
    requires AllFit(rule.appliesWhen, d) && AllFit(rule.check, d)
    requires ControlRule(rule, c, controls, evidence, now, ps).Ok?
    requires ControlRule(rule, c, controls, evidence, now, ps).value.status != "UNKNOWN"
    ensures ControlRule(rule, d, controls, evidence, now, ps) == ControlRule(rule, c, controls, evidence, now, ps)
  {
    FittingReachesNoMisfit(rule.appliesWhen, d, ps);
    FittingReachesNoMisfit(rule.check, d, ps);
    ResultIsLostExactly(rule, c, d, controls, evidence, now, ps);
  }

  lemma {:induction false} ReportIsLostExactly(rule: Rule, a: Outcome, k: Outcome, a': Outcome, k': Outcome,
                                               controls: Json, evidence: map<string, seq<Evidence>>, now: int)
    requires Keeps(a, a') && Keeps(k, k')
    requires Report(rule, a, k, controls, evidence, now).Ok?
    requires Report(rule, a, k, controls, evidence, now).value.status != "UNKNOWN"
    ensures var lost := a'.Error? || (a'.True? && ControlAnswer(rule.controlKey, controls) == Ok(Null) && k'.Error?);
            && (Report(rule, a', k', controls, evidence, now) != Report(rule, a, k, controls, evidence, now) <==> lost)
            && (lost ==> Report(rule, a', k', controls, evidence, now).Err?)
  {
    ReportKeeps(rule, a, k, a', k', controls, evidence, now);
  }

  lemma {:induction false} ReportKeeps(rule: Rule, a: Outcome, k: Outcome, a': Outcome, k': Outcome, controls: Json,
                                       evidence: map<string, seq<Evidence>>, now: int)
    requires Keeps(a, a') && Keeps(k, k')
    requires Report(rule, a, k, controls, evidence, now).Ok?
    requires Report(rule, a, k, controls, evidence, now).value.status != "UNKNOWN"
    ensures || Report(rule, a', k', controls, evidence, now) == Report(rule, a, k, controls, evidence, now)
            || (Report(rule, a', k', controls, evidence, now).Err? && (a'.Error? || k'.Error?))
  {
    if a == a' && k != k' && a.True? {
      assert Report(rule, a, k, controls, evidence, now).value.status
          == Decide(a, ControlAnswer(rule.controlKey, controls), k,
                    rule.evidenceRequired && ActiveEvidenceIds(rule.controlKey, evidence, now) == []).value;
    }
  }

  /** `attributes.get("controls", {})`. */
  function ControlsIn(context: Attributes): Json {
    if "controls" in context then context["controls"] else Dict(map[])
  }

  /** With answers and evidence fixed, the source fields a result reports determine it. */
  lemma {:induction false} SourceFieldsAreComplete(rule: Rule, c: Attributes, d: Attributes, controls: Json,
                                                   evidence: map<string, seq<Evidence>>, now: int, ps: Predicates)
    requires PredicateFree(rule.appliesWhen) && PredicateFree(rule.check)
    requires ControlRule(rule, c, controls, evidence, now, ps).Ok?
    requires var fields := ControlRule(rule, c, controls, evidence, now, ps).value.sourceFields;
             forall p | p in fields :: Resolve(p, c) == Resolve(p, d)
    ensures ControlRule(rule, d, controls, evidence, now, ps) == ControlRule(rule, c, controls, evidence, now, ps)
  {
    ReadPathsAreReported(rule, true);
    ReadPathsAreReported(rule, false);
    SamePathsSameOutcome(rule.appliesWhen, c, d, ps);
    SamePathsSameOutcome(rule.check, c, d, ps);
  }

  lemma {:induction false} ReadPathsAreReported(rule: Rule, answered: bool)
    ensures forall p | p in Paths(rule.appliesWhen) || p in Paths(rule.check) :: p in SourceFields(rule, answered)
  {
    var read := SortedPaths(Paths(rule.appliesWhen)) + SortedPaths(Paths(rule.check));
    assert forall p | p in Paths(rule.appliesWhen) || p in Paths(rule.check) :: p in read;
  }

  /** The result for a context whose answers are its own. */
  ghost function RuleIn(rule: Rule, context: Attributes, evidence: map<string, seq<Evidence>>, now: int,
                        ps: Predicates): Result<RuleResult>
  {
    ControlRule(rule, context, ControlsIn(context), evidence, now, ps)
  }

  predicate AnsweredIn(rule: Rule, context: Attributes) {
    var answer := ControlAnswer(rule.controlKey, ControlsIn(context));
    answer.Ok? && !answer.value.Null?
  }

  function AnswerPath(key: string): string {
    "controls." + key + ".answer"
  }

  lemma {:induction false} AnswerPathParts(key: string)
    requires '.' !in key
    ensures PathParts(AnswerPath(key)) == ["controls", key, "answer"]
  {
    var path := AnswerPath(key);
    assert path[0] == 'c' && PREFIX[0] == 'a';
    assert path == "controls" + "." + (key + "." + "answer");
    SplitAtDot("controls", key + "." + "answer");
    SplitAtDot(key, "answer");
    SplitWithoutDot("answer");
    assert ["controls"] + ([key] + ["answer"]) == ["controls", key, "answer"];
  }

  lemma {:induction false} WalkStep(v: Json, key: string, rest: seq<string>)
    ensures Walk(v, [key] + rest) == if v.Dict? && key in v.entries then Walk(v.entries[key], rest) else None
  {
    assert ([key] + rest)[1..] == rest;
  }

  function RecordedAnswer(key: string, controls: Json): Option<Json> {
    if controls.Dict? && key in controls.entries then Field(controls.entries[key], "answer") else None
  }

  /** Under a key without dots, the reported path leads to the recorded answer. */
  lemma {:induction false} AnswerPathResolves(key: string, context: Attributes)
    requires '.' !in key
    ensures Resolve(AnswerPath(key), context) == RecordedAnswer(key, ControlsIn(context))
  {
    AnswerPathParts(key);
    assert ["controls", key, "answer"] == ["controls"] + ([key] + (["answer"] + []));
    WalkStep(Dict(context), "controls", [key] + (["answer"] + []));
    var controls := ControlsIn(context);
    WalkStep(controls, key, ["answer"] + []);
    if controls.Dict? && key in controls.entries {
      WalkStep(controls.entries[key], "answer", []);
    }
  }

  /** The other context's recorded answers leave the result as it is. */
  ghost predicate AnswersSettle(rule: Rule, c: Attributes, d: Attributes, evidence: map<string, seq<Evidence>>, now: int,
                                ps: Predicates)
  {
    || !Truthy(rule.controlKey) || !Applies(rule, c, ps).True?
    || if '.' !in rule.controlKey.value
       then AnsweredIn(rule, c) || ControlAnswer(rule.controlKey, ControlsIn(d)) == Ok(Null)
       else SameByAnswers(rule, ControlAnswer(rule.controlKey, ControlsIn(c)),
                          ControlAnswer(rule.controlKey, ControlsIn(d)), EvaluateCondition(rule.check, c, ps),
                          rule.evidenceRequired && ActiveEvidenceIds(rule.controlKey, evidence, now) == [])
  }

  /** Two recorded answers that decide the same and are reported the same. */
  ghost predicate SameByAnswers(rule: Rule, a: Result<Json>, b: Result<Json>, check: Outcome, evidenceMissing: bool) {
    && Decide(True, b, check, evidenceMissing) == Decide(True, a, check, evidenceMissing)
    && SourceFields(rule, b.Ok? && !b.value.Null?) == SourceFields(rule, a.Ok? && !a.value.Null?)
  }

  /**
    With evidence fixed, a context that agrees on the reported fields gives the same result if and only if: there is
    no control key, or the rule does not apply for sure, or an answer was recorded under a key without dots, or the
    other context records none either. Under a key with dots the path reported is not the answer's, and its answer
    must decide the same.
   */
  lemma {:induction false} SourceFieldsDetermineExactly(rule: Rule, c: Attributes, d: Attributes,
                                                        evidence: map<string, seq<Evidence>>, now: int, ps: Predicates)
    requires PredicateFree(rule.appliesWhen) && PredicateFree(rule.check) && RuleIn(rule, c, evidence, now, ps).Ok?
    requires forall p | p in RuleIn(rule, c, evidence, now, ps).value.sourceFields :: Resolve(p, c) == Resolve(p, d)
    ensures RuleIn(rule, d, evidence, now, ps) == RuleIn(rule, c, evidence, now, ps)
       <==> AnswersSettle(rule, c, d, evidence, now, ps)
  {
    ReadPathsAreReported(rule, true);
    ReadPathsAreReported(rule, false);
    SamePathsSameOutcome(rule.appliesWhen, c, d, ps);
    SamePathsSameOutcome(rule.check, c, d, ps);
    var a, b := ControlAnswer(rule.controlKey, ControlsIn(c)), ControlAnswer(rule.controlKey, ControlsIn(d));
    var k := EvaluateCondition(rule.check, c, ps);
    ReportedSame(rule, Applies(rule, c, ps), k, ControlsIn(c), ControlsIn(d), evidence, now);
    if Truthy(rule.controlKey) && Applies(rule, c, ps).True? && '.' !in rule.controlKey.value {
      DotFreeKey(rule, c, d, RuleIn(rule, c, evidence, now, ps).value.sourceFields);
      NotAnsweredDiffers(rule, a, b, k, rule.evidenceRequired && ActiveEvidenceIds(rule.controlKey, evidence, now) == []);
      AnswerIsReported(rule);
    }
  }

  /** The result depends on the answers only where the rule applies. */
  lemma {:induction false} ReportedSame(rule: Rule, applies: Outcome, check: Outcome, controls: Json, others: Json,
                                        evidence: map<string, seq<Evidence>>, now: int)
    requires Report(rule, applies, check, controls, evidence, now).Ok?
    ensures Report(rule, applies, check, others, evidence, now) == Report(rule, applies, check, controls, evidence, now)
       <==> !applies.True?
            || SameByAnswers(rule, ControlAnswer(rule.controlKey, controls), ControlAnswer(rule.controlKey, others), check,
                             rule.evidenceRequired && ActiveEvidenceIds(rule.controlKey, evidence, now) == [])
  {
  }

  lemma {:induction false} AnswerIsReported(rule: Rule)
    requires Truthy(rule.controlKey)
    ensures AnswerPath(rule.controlKey.value) in SourceFields(rule, true)
  {
    var read := SortedPaths(Paths(rule.appliesWhen)) + SortedPaths(Paths(rule.check));
    assert AnswerPath(rule.controlKey.value) in read + [AnswerPath(rule.controlKey.value)];
  }

  /** Where the answer's path is among the fields agreed on, the answers are the same. */
  lemma {:induction false} DotFreeKey(rule: Rule, c: Attributes, d: Attributes, fields: seq<string>)
    requires Truthy(rule.controlKey) && '.' !in rule.controlKey.value
    requires forall p | p in fields :: Resolve(p, c) == Resolve(p, d)
    ensures AnswerPath(rule.controlKey.value) in fields && (AnsweredIn(rule, c) || AnsweredIn(rule, d)) ==>
              ControlAnswer(rule.controlKey, ControlsIn(d)) == ControlAnswer(rule.controlKey, ControlsIn(c))
  {
    AnswerPathResolves(rule.controlKey.value, c);
    AnswerPathResolves(rule.controlKey.value, d);
  }

  lemma {:induction false} NotAnsweredDiffers(rule: Rule, a: Result<Json>, b: Result<Json>, check: Outcome, evidenceMissing: bool)
    ensures a == b ==> SameByAnswers(rule, a, b, check, evidenceMissing)
    ensures SameByAnswers(rule, a, b, check, evidenceMissing) && b.Err? ==> Decide(True, a, check, evidenceMissing).Err?
  {
  }

  /** An answer nobody reported: the contexts agree on every reported field, and the result goes from FAIL to PASS. */
  lemma {:induction false} UnreportedAnswerCounts(ps: Predicates)
    ensures var rule := Rule("r", Some("k"), None, "high", "d", Null, Null, [], false);
            var c: Attributes := map[];
            var d: Attributes := map["controls" := Dict(map["k" := Dict(map["answer" := Str("yes")])])];
            && RuleIn(rule, c, map[], 0, ps).Ok? && RuleIn(rule, c, map[], 0, ps).value.status == "FAIL"
            && RuleIn(rule, c, map[], 0, ps).value.sourceFields == []
            && RuleIn(rule, d, map[], 0, ps).Ok? && RuleIn(rule, d, map[], 0, ps).value.status == "PASS"
  {
  }

  // ---------------------------------------------------------------------------
  // A pack
  // ---------------------------------------------------------------------------

  predicate Failing(status: string) {
    status == "FAIL" || status == "PARTIAL"
  }

  function ToViolation(r: RuleResult): Violation {
    Violation(r.ruleId, r.controlKey, r.obligationKey, r.description, r.severity, r.recommendedActions,
              r.sourceFields, r.evidenceIds)
  }

  function Statuses(results: seq<RuleResult>): (s: seq<string>)
    ensures |s| == |results| && forall i | 0 <= i < |s| :: s[i] == results[i].status
  {
    seq(|results|, i requires 0 <= i < |results| => results[i].status)
  }

  function ViolationsOf(results: seq<RuleResult>): seq<Violation> {
    if results == [] then []
    else
      var last := results[|results| - 1];
      ViolationsOf(results[..|results| - 1]) + if Failing(last.status) then [ToViolation(last)] else []
  }

  function ActionsOf(results: seq<RuleResult>): seq<string> {
    if results == [] then []
    else
      var last := results[|results| - 1];
      ActionsOf(results[..|results| - 1]) + if Failing(last.status) then last.recommendedActions else []
  }

  /** `list(dict.fromkeys(s))`: first occurrences, in order. */
  function FirstOccurrences(s: seq<string>): seq<string> {
    if s == [] then []
    else
      var rest := FirstOccurrences(s[..|s| - 1]);
      if s[|s| - 1] in rest then rest else rest + [s[|s| - 1]]
  }

  ghost function ResultsOf(rules: seq<Rule>, context: Attributes, controls: Json, evidence: map<string, seq<Evidence>>,
                           now: int, ps: Predicates): (rs: Result<seq<RuleResult>>)
    ensures rs.Ok? ==> |rs.value| == |rules|
  {
    if rules == [] then Ok([])
    else
      match ResultsOf(rules[..|rules| - 1], context, controls, evidence, now, ps)
      case Err(error) => Err(error)
      case Ok(done) =>
        match ControlRule(rules[|rules| - 1], context, controls, evidence, now, ps)
        case Err(error) => Err(error)
        case Ok(r) => Ok(done + [r])
  }

  /** Result i is the i-th rule's. */
  lemma {:induction false} ResultAt(rules: seq<Rule>, context: Attributes, controls: Json,
                                    evidence: map<string, seq<Evidence>>, now: int, ps: Predicates, i: nat)
    requires i < |rules| && ResultsOf(rules, context, controls, evidence, now, ps).Ok?
    ensures ControlRule(rules[i], context, controls, evidence, now, ps)
         == Ok(ResultsOf(rules, context, controls, evidence, now, ps).value[i])
  {
    if i < |rules| - 1 {
      ResultAt(rules[..|rules| - 1], context, controls, evidence, now, ps, i);
    }
  }

  function Assembled(vertical: string, entityType: string, results: seq<RuleResult>): EvaluationResult {
    EvaluationResult(vertical, entityType, Score.ScoreOf(Statuses(results)), results, ViolationsOf(results),
                     FirstOccurrences(ActionsOf(results)))
  }

  lemma {:induction false} ErrorStays(rules: seq<Rule>, i: nat, context: Attributes, controls: Json,
                                      evidence: map<string, seq<Evidence>>, now: int, ps: Predicates)
    requires i <= |rules| && ResultsOf(rules[..i], context, controls, evidence, now, ps).Err?
    ensures ResultsOf(rules, context, controls, evidence, now, ps)
         == ResultsOf(rules[..i], context, controls, evidence, now, ps)
    decreases |rules|
  {
    if i == |rules| {
      assert rules[..i] == rules;
    } else {
      var shorter := rules[..|rules| - 1];
      assert shorter[..i] == rules[..i];
      ErrorStays(shorter, i, context, controls, evidence, now, ps);
    }
  }

  lemma {:induction false} ResultsOneMore(rules: seq<Rule>, i: nat, context: Attributes, controls: Json,
                                          evidence: map<string, seq<Evidence>>, now: int, ps: Predicates,
                                          results: seq<RuleResult>, result: Result<RuleResult>)
    requires i < |rules| && ResultsOf(rules[..i], context, controls, evidence, now, ps) == Ok(results)
    requires result == ControlRule(rules[i], context, controls, evidence, now, ps)
    ensures ResultsOf(rules[..i + 1], context, controls, evidence, now, ps)
         == if result.Ok? then Ok(results + [result.value]) else Err(result.error)
  {
    var more := rules[..i + 1];
    assert more[..|more| - 1] == rules[..i] && more[|more| - 1] == rules[i];
  }

  method Evaluate(vertical: string, rules: seq<Rule>, entityType: string, context: Attributes,
                  evidence: map<string, seq<Evidence>>, now: int, ps: Predicates) returns (r: Result<EvaluationResult>)
    ensures r == match ResultsOf(rules, context, ControlsIn(context), evidence, now, ps)
                 case Err(error) => Err(error)
                 case Ok(results) => Ok(Assembled(vertical, entityType, results))
  {
    var ran := RunRules(rules, context, ControlsIn(context), evidence, now, ps);
    if ran.Err? {
      return Err(ran.error);
    }
    var assembled := Assemble(vertical, entityType, ran.value);
    r := Ok(assembled);
  }

  method Assemble(vertical: string, entityType: string, results: seq<RuleResult>) returns (r: EvaluationResult)
    ensures r == Assembled(vertical, entityType, results)
  {
    var actions: seq<string> := [];
    var violations: seq<Violation> := [];
    var statuses: seq<string> := [];
    for i := 0 to |results|
      invariant violations == ViolationsOf(results[..i]) && statuses == Statuses(results[..i])
      invariant actions == ActionsOf(results[..i])
    {
      assert results[..i + 1][..i] == results[..i];
      statuses := statuses + [results[i].status];
      if Failing(results[i].status) {
        actions := actions + results[i].recommendedActions;
        violations := violations + [ToViolation(results[i])];
      }
    }
    assert results[..|results|] == results;
    var score := Score.ComputeScore(statuses);
    r := EvaluationResult(vertical, entityType, score, results, violations, FirstOccurrences(actions));
  }

  method RunRules(rules: seq<Rule>, context: Attributes, controls: Json, evidence: map<string, seq<Evidence>>,
                  now: int, ps: Predicates) returns (r: Result<seq<RuleResult>>)
    ensures r == ResultsOf(rules, context, controls, evidence, now, ps)
  {
    var results: seq<RuleResult> := [];
    for i := 0 to |rules|
      invariant ResultsOf(rules[..i], context, controls, evidence, now, ps) == Ok(results)
    {
      var result := EvaluateControlRule(rules[i], context, controls, evidence, now, ps);
      ResultsOneMore(rules, i, context, controls, evidence, now, ps, results, result);
      if result.Err? {
        ErrorStays(rules, i + 1, context, controls, evidence, now, ps);
        return Err(result.error);
      }
      results := results + [result.value];
    }
    assert rules[..|rules|] == rules;
    r := Ok(results);
  }

  lemma {:induction false} FittingRuleRuns(rule: Rule, c: Attributes, context: Attributes, controls: Json,
                                           evidence: map<string, seq<Evidence>>, now: int, ps: Predicates)
    requires Monotone(rule.appliesWhen, c) && Monotone(rule.check, c) && controls.Dict?
    requires AllFit(rule.appliesWhen, context) && AllFit(rule.check, context)
    ensures ControlRule(rule, context, controls, evidence, now, ps).Ok?
  {
    FittingReachesNoMisfit(rule.appliesWhen, context, ps);
    FittingReachesNoMisfit(rule.check, context, ps);
    RaisesExactly(rule.appliesWhen, c, context, ps);
    RaisesExactly(rule.check, c, context, ps);
  }

  lemma {:induction false} AllRulesRun(rules: seq<Rule>, context: Attributes, controls: Json,
                                       evidence: map<string, seq<Evidence>>, now: int, ps: Predicates)
    requires forall i | 0 <= i < |rules| :: ControlRule(rules[i], context, controls, evidence, now, ps).Ok?
    ensures ResultsOf(rules, context, controls, evidence, now, ps).Ok?
  {
    if rules != [] {
      AllRulesRun(rules[..|rules| - 1], context, controls, evidence, now, ps);
    }
  }

  ghost predicate RulesFit(rules: seq<Rule>, context: Attributes) {
    forall j | 0 <= j < |rules| :: AllFit(rules[j].appliesWhen, context) && AllFit(rules[j].check, context)
  }

  ghost predicate RulesMonotone(rules: seq<Rule>, context: Attributes) {
    forall j | 0 <= j < |rules| :: Monotone(rules[j].appliesWhen, context) && Monotone(rules[j].check, context)
  }

  /** If every comparison fits the new context, the pack raises neither before nor after. */
  lemma {:induction false} PackRuns(rules: seq<Rule>, c: Attributes, d: Attributes, controls: Json,
                                    evidence: map<string, seq<Evidence>>, now: int, ps: Predicates)
    requires RulesMonotone(rules, c) && RulesFit(rules, d) && Informs(Dict(c), Dict(d)) && controls.Dict?
    ensures ResultsOf(rules, c, controls, evidence, now, ps).Ok? && ResultsOf(rules, d, controls, evidence, now, ps).Ok?
  {
    forall j | 0 <= j < |rules|
      ensures ControlRule(rules[j], c, controls, evidence, now, ps).Ok?
      ensures ControlRule(rules[j], d, controls, evidence, now, ps).Ok?
    {
      FittedBefore(rules[j].appliesWhen, c, d);
      FittedBefore(rules[j].check, c, d);
      FittingRuleRuns(rules[j], c, c, controls, evidence, now, ps);
      FittingRuleRuns(rules[j], c, d, controls, evidence, now, ps);
    }
    AllRulesRun(rules, c, controls, evidence, now, ps);
    AllRulesRun(rules, d, controls, evidence, now, ps);
  }

  /**
    For a whole pack whose comparisons fit the new context: both evaluations succeed, and no result but UNKNOWN
    changes as information arrives.
   */
  lemma {:induction false} PackIsFinal(rules: seq<Rule>, c: Attributes, d: Attributes, controls: Json,
                                       evidence: map<string, seq<Evidence>>, now: int, ps: Predicates, i: nat)
    requires RulesMonotone(rules, c) && RulesFit(rules, d) && Informs(Dict(c), Dict(d)) && controls.Dict?
    ensures ResultsOf(rules, c, controls, evidence, now, ps).Ok? && ResultsOf(rules, d, controls, evidence, now, ps).Ok?
    ensures i < |rules| && ResultsOf(rules, c, controls, evidence, now, ps).value[i].status != "UNKNOWN" ==>
              (ResultsOf(rules, d, controls, evidence, now, ps).value[i]
                 == ResultsOf(rules, c, controls, evidence, now, ps).value[i])
  {
    PackRuns(rules, c, d, controls, evidence, now, ps);
    if i < |rules| && ResultsOf(rules, c, controls, evidence, now, ps).value[i].status != "UNKNOWN" {
      ResultAt(rules, c, controls, evidence, now, ps, i);
      ResultAt(rules, d, controls, evidence, now, ps, i);
      ResultIsFinal(rules[i], c, d, controls, evidence, now, ps);
    }
  }
}
