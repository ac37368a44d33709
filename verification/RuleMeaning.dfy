/**
  What a control rule's result says: the status from the recorded answer or from the check,
  the evidence reported with it, and what an evaluation collects from its results.
 */
module RuleMeaning {
  import opened Engine
  import opened EngineStability
  import opened Json
  import opened Picking
  import opened Rules
  import opened Wrappers

  // ---------------------------------------------------------------------------
  // Answers and evidence
  // ---------------------------------------------------------------------------

  /** An answer that is not null is recorded under the rule's control key. */
  predicate AnsweredWith(rule: Rule, controls: Json, answer: Json) {
    && rule.controlKey.Some? && rule.controlKey.value != ""
    && controls.Dict? && rule.controlKey.value in controls.entries
    && var entry := controls.entries[rule.controlKey.value];
       entry.Dict? && "answer" in entry.entries && entry.entries["answer"] == answer && answer != Null
  }

  /** No answer is, and the controls, where they are looked at, are a dictionary. */
  ghost predicate Unanswered(rule: Rule, controls: Json) {
    && (forall answer :: !AnsweredWith(rule, controls, answer))
    && (rule.controlKey.Some? && rule.controlKey.value != "" ==> controls.Dict?)
  }

  lemma {:induction false} AnswerFound(rule: Rule, controls: Json, answer: Json)
    requires answer != Null
    ensures AnsweredWith(rule, controls, answer) <==> ControlAnswer(rule.controlKey, controls) == Ok(answer)
  {
  }

  lemma {:induction false} NoAnswerFound(rule: Rule, controls: Json)
    requires Unanswered(rule, controls)
    ensures ControlAnswer(rule.controlKey, controls) == Ok(Null)
  {
    var found := ControlAnswer(rule.controlKey, controls);
    if found.Ok? && found.value != Null {
      AnswerFound(rule, controls, found.value);
    }
  }

  /** Changed within the last 365 days, or without any time. */
  predicate Active(row: Evidence, now: int) {
    row.stamp.None? || now - row.stamp.value <= 365 * 86400
  }

  function RowsFor(rule: Rule, evidence: map<string, seq<Evidence>>): seq<Evidence> {
    if rule.controlKey.Some? && rule.controlKey.value != "" && rule.controlKey.value in evidence
    then evidence[rule.controlKey.value] else []
  }

  predicate HasActive(rule: Rule, evidence: map<string, seq<Evidence>>, now: int) {
    exists i :: 0 <= i < |RowsFor(rule, evidence)| && Active(RowsFor(rule, evidence)[i], now)
  }

  function ActiveMarks(rows: seq<Evidence>, now: int): (marks: seq<bool>)
    ensures |marks| == |rows| && forall i | 0 <= i < |rows| :: marks[i] == Active(rows[i], now)
  {
    seq(|rows|, i requires 0 <= i < |rows| => Active(rows[i], now))
  }

  /** The ids are those of the active rows, each once, in the order of the rows. */
  ghost predicate ActiveAt(rows: seq<Evidence>, now: int, ids: seq<string>, at: seq<nat>) {
    Picks(ActiveMarks(rows, now), at) && IdsAt(rows, ids, at)
  }

  predicate IdsAt(rows: seq<Evidence>, ids: seq<string>, at: seq<nat>) {
    |at| == |ids| && forall k | 0 <= k < |at| :: at[k] < |rows| && ids[k] == rows[at[k]].id
  }

  lemma {:induction false} IdsGrow(rows: seq<Evidence>, row: Evidence, ids: seq<string>, at: seq<nat>)
    requires IdsAt(rows, ids, at)
    ensures IdsAt(rows + [row], ids, at) && IdsAt(rows + [row], ids + [row.id], at + [|rows|])
  {
  }

  lemma {:induction false} ActiveStep(rows: seq<Evidence>, row: Evidence, now: int, before: seq<nat>)
      returns (at: seq<nat>)
    requires ActiveAt(rows, now, ActiveIds(rows, now), before)
    ensures ActiveAt(rows + [row], now, ActiveIds(rows + [row], now), at)
  {
    at := if Active(row, now) then before + [|rows|] else before;
    assert (rows + [row])[..|rows|] == rows;
    IdsGrow(rows, row, ActiveIds(rows, now), before);
    ActiveMarksGrow(rows, row, now);
    PicksGrow(ActiveMarks(rows, now), Active(row, now), before);
  }

  lemma {:induction false} ActiveMarksGrow(rows: seq<Evidence>, row: Evidence, now: int)
    ensures ActiveMarks(rows + [row], now) == ActiveMarks(rows, now) + [Active(row, now)]
  {
  }

  lemma {:induction false} ActiveIdsExactly(rows: seq<Evidence>, now: int) returns (at: seq<nat>)
    ensures ActiveAt(rows, now, ActiveIds(rows, now), at)
  {
    at := [];
    if rows != [] {
      var n := |rows| - 1;
      var before := ActiveIdsExactly(rows[..n], now);
      at := ActiveStep(rows[..n], rows[n], now, before);
      assert rows == rows[..n] + [rows[n]];
    }
  }

  ghost predicate ReportsActive(rule: Rule, evidence: map<string, seq<Evidence>>, now: int, ids: seq<string>) {
    exists at :: ActiveAt(RowsFor(rule, evidence), now, ids, at)
  }

  lemma {:induction false} EvidenceFound(rule: Rule, evidence: map<string, seq<Evidence>>, now: int)
    ensures ReportsActive(rule, evidence, now, ActiveEvidenceIds(rule.controlKey, evidence, now))
    ensures ActiveEvidenceIds(rule.controlKey, evidence, now) == [] <==> !HasActive(rule, evidence, now)
  {
    var rows := RowsFor(rule, evidence);
    var at := ActiveIdsExactly(rows, now);
    assert ActiveIds(rows, now) == ActiveEvidenceIds(rule.controlKey, evidence, now);
    if at == [] {
      assert forall i | 0 <= i < |rows| :: ActiveMarks(rows, now)[i] == Active(rows[i], now);
    } else {
      assert Active(rows[at[0]], now);
    }
  }

  predicate ProofMissing(rule: Rule, evidence: map<string, seq<Evidence>>, now: int) {
    rule.evidenceRequired && !HasActive(rule, evidence, now)
  }

  /** The evidence goes with a PASS and with nothing else. */
  ghost predicate ReportsEvidence(rule: Rule, evidence: map<string, seq<Evidence>>, now: int, r: RuleResult) {
    if r.status == "PASS" then ReportsActive(rule, evidence, now, r.evidenceIds) else r.evidenceIds == []
  }

  // ---------------------------------------------------------------------------
  // The status
  // ---------------------------------------------------------------------------

  ghost predicate InForce(rule: Rule, context: Attributes, ps: Predicates) {
    rule.appliesWhen.Null? || EvaluateCondition(rule.appliesWhen, context, ps).True?
  }

  /** A recorded answer settles the status, whatever the check would say, even if it would raise. */
  lemma {:induction false} AnswerSettlesStatus(rule: Rule, context: Attributes, controls: Json,
                                               evidence: map<string, seq<Evidence>>, now: int, ps: Predicates, answer: Json)
    requires InForce(rule, context, ps) && AnsweredWith(rule, controls, answer)
    ensures var r := ControlRule(rule, context, controls, evidence, now, ps);
            && r.Ok? && ReportsEvidence(rule, evidence, now, r.value)
            && r.value.status == if answer == Str("no") then "FAIL"
                                 else if answer == Str("unanswered") || answer == Str("not_sure") then "UNKNOWN"
                                 else if ProofMissing(rule, evidence, now) then "PARTIAL"
                                 else "PASS"
  {
    AnswerFound(rule, controls, answer);
    EvidenceFound(rule, evidence, now);
    assert Applies(rule, context, ps).True?;
    var ids := ActiveEvidenceIds(rule.controlKey, evidence, now);
    AnswerDecided(answer, EvaluateCondition(rule.check, context, ps), rule.evidenceRequired && ids == []);
  }

  lemma {:induction false} AnswerDecided(answer: Json, check: Outcome, evidenceMissing: bool)
    requires answer != Null
    ensures Decide(True, Ok(answer), check, evidenceMissing)
         == Ok(if answer == Str("no") then "FAIL"
               else if answer == Str("unanswered") || answer == Str("not_sure") then "UNKNOWN"
               else if evidenceMissing then "PARTIAL" else "PASS")
  {
    assert forall s :: Equal(answer, Str(s)) <==> answer == Str(s);
  }

  /** Without an answer the check does. */
  lemma {:induction false} CheckSettlesStatus(rule: Rule, context: Attributes, controls: Json,
                                              evidence: map<string, seq<Evidence>>, now: int, ps: Predicates)
    requires InForce(rule, context, ps) && Unanswered(rule, controls)
    ensures var r := ControlRule(rule, context, controls, evidence, now, ps);
            var check := EvaluateCondition(rule.check, context, ps);
            if check.Error? then r == Err(check.error)
            else
              && r.Ok? && ReportsEvidence(rule, evidence, now, r.value)
              && r.value.status == if check.False? then "FAIL"
                                   else if check.Unknown? then "UNKNOWN"
                                   else if ProofMissing(rule, evidence, now) then "PARTIAL"
                                   else "PASS"
  {
    NoAnswerFound(rule, controls);
    EvidenceFound(rule, evidence, now);
    var check := EvaluateCondition(rule.check, context, ps);
    assert ControlRule(rule, context, controls, evidence, now, ps) == Report(rule, True, check, controls, evidence, now);
    CheckReported(rule, check, controls, evidence, now);
  }

  lemma {:induction false} CheckReported(rule: Rule, check: Outcome, controls: Json, evidence: map<string, seq<Evidence>>,
                                         now: int)
    requires ControlAnswer(rule.controlKey, controls) == Ok(Null)
    ensures var r := Report(rule, True, check, controls, evidence, now);
            var ids := ActiveEvidenceIds(rule.controlKey, evidence, now);
            if check.Error? then r == Err(check.error)
            else
              && r.Ok? && r.value.evidenceIds == (if r.value.status == "PASS" then ids else [])
              && r.value.status == if check.False? then "FAIL"
                                   else if check.Unknown? then "UNKNOWN"
                                   else if rule.evidenceRequired && ids == [] then "PARTIAL"
                                   else "PASS"
  {
  }

  /** A rule that does not apply, or not for sure, looks at neither. */
  lemma {:induction false} ApplicabilitySettlesStatus(rule: Rule, context: Attributes, controls: Json,
                                                      evidence: map<string, seq<Evidence>>, now: int, ps: Predicates)
    requires !InForce(rule, context, ps)
    ensures var r := ControlRule(rule, context, controls, evidence, now, ps);
            var applies := EvaluateCondition(rule.appliesWhen, context, ps);
            if applies.Error? then r == Err(applies.error)
            else r.Ok? && r.value.evidenceIds == []
                 && r.value.status == if applies.False? then "NOT_APPLICABLE" else "UNKNOWN"
  {
  }

  /** The rest of a result is the rule's, and its source fields are the paths of both conditions and the answer's. */
  lemma {:induction false} ResultIsTheRules(rule: Rule, context: Attributes, controls: Json,
                                            evidence: map<string, seq<Evidence>>, now: int, ps: Predicates, path: string)
    requires ControlRule(rule, context, controls, evidence, now, ps).Ok?
    ensures var r := ControlRule(rule, context, controls, evidence, now, ps).value;
            && r.ruleId == rule.ruleId && r.controlKey == rule.controlKey && r.obligationKey == rule.obligationKey
            && r.severity == rule.severity && r.description == rule.description
            && r.recommendedActions == rule.recommendedActions
            && (path in r.sourceFields <==>
                  || path in Paths(rule.appliesWhen) || path in Paths(rule.check)
                  || (InForce(rule, context, ps) && (exists answer :: AnsweredWith(rule, controls, answer))
                      && path == "controls." + rule.controlKey.value + ".answer"))
  {
    var r := ControlRule(rule, context, controls, evidence, now, ps).value;
    var found := ControlAnswer(rule.controlKey, controls);
    var answered := Applies(rule, context, ps).True? && found.Ok? && !found.value.Null?;
    assert r.sourceFields == SourceFields(rule, answered);
    assert InForce(rule, context, ps) <==> Applies(rule, context, ps).True?;
    if answered {
      AnswerFound(rule, controls, found.value);
    } else if answer :| AnsweredWith(rule, controls, answer) {
      AnswerFound(rule, controls, answer);
    }
    FieldsReported(rule, answered, path);
  }

  lemma {:induction false} FieldsReported(rule: Rule, answered: bool, path: string)
    ensures path in SourceFields(rule, answered) <==>
              || path in Paths(rule.appliesWhen) || path in Paths(rule.check)
              || (answered && Truthy(rule.controlKey) && path == "controls." + rule.controlKey.value + ".answer")
  {
    var read := SortedPaths(Paths(rule.appliesWhen)) + SortedPaths(Paths(rule.check));
    if answered && Truthy(rule.controlKey) {
      var own := "controls." + rule.controlKey.value + ".answer";
      assert path in read + [own] <==> path in read || path == own;
    }
  }

  // ---------------------------------------------------------------------------
  // What an evaluation collects
  // ---------------------------------------------------------------------------

  predicate Fails(r: RuleResult) {
    r.status in {"FAIL", "PARTIAL"}
  }

  function FailMarks(results: seq<RuleResult>): (marks: seq<bool>)
    ensures |marks| == |results| && forall i | 0 <= i < |results| :: marks[i] == Fails(results[i])
  {
    seq(|results|, i requires 0 <= i < |results| => Fails(results[i]))
  }

  /** There is one violation for each failing result, in order, and it carries that result's fields. */
  lemma {:induction false} ViolationsExactly(results: seq<RuleResult>) returns (at: seq<nat>)
    ensures Picks(FailMarks(results), at) && ReportsAt(results, ViolationsOf(results), at)
  {
    at := [];
    if results != [] {
      var n := |results| - 1;
      var before := ViolationsExactly(results[..n]);
      at := ViolationStep(results[..n], results[n], before);
      assert results == results[..n] + [results[n]];
    }
  }

  lemma {:induction false} ViolationStep(results: seq<RuleResult>, r: RuleResult, before: seq<nat>)
      returns (at: seq<nat>)
    requires Picks(FailMarks(results), before) && ReportsAt(results, ViolationsOf(results), before)
    ensures Picks(FailMarks(results + [r]), at) && ReportsAt(results + [r], ViolationsOf(results + [r]), at)
  {
    at := if Fails(r) then before + [|results|] else before;
    assert (results + [r])[..|results|] == results;
    ReportsGrow(results, r, ViolationsOf(results), before);
    FailMarksGrow(results, r);
    PicksGrow(FailMarks(results), Fails(r), before);
  }

  lemma {:induction false} FailMarksGrow(results: seq<RuleResult>, r: RuleResult)
    ensures FailMarks(results + [r]) == FailMarks(results) + [Fails(r)]
  {
  }

  /** Violation k is the result's at the k-th place. */
  predicate ReportsAt(results: seq<RuleResult>, vs: seq<Violation>, at: seq<nat>) {
    |at| == |vs| && forall k | 0 <= k < |at| :: at[k] < |results| && Reports(vs[k], results[at[k]])
  }

  lemma {:induction false} ReportsGrow(results: seq<RuleResult>, r: RuleResult, vs: seq<Violation>, at: seq<nat>)
    requires ReportsAt(results, vs, at)
    ensures ReportsAt(results + [r], vs, at) && ReportsAt(results + [r], vs + [ToViolation(r)], at + [|results|])
  {
  }

  predicate Reports(v: Violation, r: RuleResult) {
    && v.ruleId == r.ruleId && v.controlKey == r.controlKey && v.obligationKey == r.obligationKey
    && v.description == r.description && v.severity == r.severity && v.recommendedActions == r.recommendedActions
    && v.sourceFields == r.sourceFields && v.evidenceIds == r.evidenceIds
  }

  /** Where a recommended action stands: in which failing result, and in which place there. */
  datatype Place = Place(result: nat, position: nat)

  predicate Recommends(results: seq<RuleResult>, p: Place, action: string) {
    && p.result < |results| && Fails(results[p.result])
    && p.position < |results[p.result].recommendedActions|
    && results[p.result].recommendedActions[p.position] == action
  }

  predicate Earlier(p: Place, q: Place) {
    p.result < q.result || (p.result == q.result && p.position < q.position)
  }

  ghost predicate PlacesOf(results: seq<RuleResult>, actions: seq<string>, places: seq<Place>) {
    && |places| == |actions|
    && (forall i | 0 <= i < |places| :: Recommends(results, places[i], actions[i]))
    && (forall i, j | 0 <= i < j < |places| :: Earlier(places[i], places[j]))
    && (forall p, action | Recommends(results, p, action) :: p in places)
  }

  lemma {:induction false} ActionsHavePlaces(results: seq<RuleResult>) returns (places: seq<Place>)
    ensures PlacesOf(results, ActionsOf(results), places)
  {
    places := [];
    if results != [] {
      var n := |results| - 1;
      var before := ActionsHavePlaces(results[..n]);
      var last := results[n].recommendedActions;
      var more: seq<Place> := if Fails(results[n]) then seq(|last|, i requires 0 <= i < |last| => Place(n, i)) else [];
      places := before + more;
      PlacesGrow(results, n, before, more);
    }
  }

  lemma {:induction false} PlacesGrow(results: seq<RuleResult>, n: nat, before: seq<Place>, more: seq<Place>)
    requires |results| == n + 1 && PlacesOf(results[..n], ActionsOf(results[..n]), before)
    requires |more| == if Fails(results[n]) then |results[n].recommendedActions| else 0
    requires forall i | 0 <= i < |more| :: more[i] == Place(n, i)
    ensures PlacesOf(results, ActionsOf(results), before + more)
  {
    var all := before + more;
    forall p, action | Recommends(results, p, action) ensures p in all {
      if p.result < n {
        assert Recommends(results[..n], p, action);
      } else {
        assert more[p.position] == p;
        assert all[|before| + p.position] == p;
      }
    }
    forall i | 0 <= i < |all| ensures Recommends(results, all[i], ActionsOf(results)[i]) {
      if i < |before| { assert Recommends(results[..n], before[i], ActionsOf(results[..n])[i]); }
    }
  }

  /** Each one is at the place of its first occurrence. */
  predicate FirstsAt(s: seq<string>, firsts: seq<string>, at: seq<nat>) {
    && |at| == |firsts| && Increasing(at)
    && forall k | 0 <= k < |at| :: at[k] < |s| && s[at[k]] == firsts[k] && firsts[k] !in s[..at[k]]
  }

  /** Duplicates go, and what stays is in the order in which it first occurs. */
  lemma {:induction false} FirstOccurrencesExactly(s: seq<string>) returns (at: seq<nat>)
    ensures FirstsAt(s, FirstOccurrences(s), at) && forall x :: x in FirstOccurrences(s) <==> x in s
  {
    at := [];
    if s != [] {
      var n := |s| - 1;
      var before := FirstOccurrencesExactly(s[..n]);
      assert s == s[..n] + [s[n]];
      FirstsStay(s[..n], s[n], FirstOccurrences(s[..n]), before);
      at := if s[n] in FirstOccurrences(s[..n]) then before else before + [n];
    }
  }

  lemma {:induction false} FirstsStay(s: seq<string>, x: string, firsts: seq<string>, at: seq<nat>)
    requires FirstsAt(s, firsts, at)
    ensures FirstsAt(s + [x], firsts, at)
    ensures x !in s ==> FirstsAt(s + [x], firsts + [x], at + [|s|])
  {
    forall k | 0 <= k < |at| ensures (s + [x])[..at[k]] == s[..at[k]] {}
    assert (s + [x])[..|s|] == s;
  }

  lemma {:induction false} FirstsDiffer(s: seq<string>, firsts: seq<string>, at: seq<nat>)
    requires FirstsAt(s, firsts, at)
    ensures forall i, j | 0 <= i < j < |firsts| :: firsts[i] != firsts[j]
  {
    forall i, j | 0 <= i < j < |firsts| ensures firsts[i] != firsts[j] {
      assert s[..at[j]][at[i]] == firsts[i];
    }
  }

  /**
    The required actions are those that some failing result recommends, each once; one comes before another exactly
    if the first place that recommends it does.
   */
  lemma {:induction false} RequiredActionsExactly(vertical: string, entityType: string, results: seq<RuleResult>)
      returns (places: seq<Place>)
    ensures var actions := Assembled(vertical, entityType, results).requiredActions;
            && |places| == |actions|
            && (forall i, j | 0 <= i < j < |actions| :: actions[i] != actions[j])
            && (forall i, j | 0 <= i < j < |places| :: Earlier(places[i], places[j]))
            && (forall i | 0 <= i < |actions| :: FirstPlace(results, places[i], actions[i]))
            && (forall p, action | Recommends(results, p, action) :: action in actions)
  {
    var all := ActionsOf(results);
    var where := ActionsHavePlaces(results);
    var at := FirstOccurrencesExactly(all);
    FirstsDiffer(all, FirstOccurrences(all), at);
    PlacesCover(results, where);
    places := PickPlaces(results, where, FirstOccurrences(all), at);
  }

  lemma {:induction false} PlacesCover(results: seq<RuleResult>, where: seq<Place>)
    requires PlacesOf(results, ActionsOf(results), where)
    ensures forall p, action | Recommends(results, p, action) :: action in ActionsOf(results)
  {
    forall p, action | Recommends(results, p, action) ensures action in ActionsOf(results) {
      var k :| 0 <= k < |where| && where[k] == p;
      assert ActionsOf(results)[k] == action;
    }
  }

  lemma {:induction false} PickPlaces(results: seq<RuleResult>, where: seq<Place>, actions: seq<string>, at: seq<nat>)
      returns (places: seq<Place>)
    requires PlacesOf(results, ActionsOf(results), where) && FirstsAt(ActionsOf(results), actions, at)
    ensures |places| == |actions|
    ensures forall i, j | 0 <= i < j < |places| :: Earlier(places[i], places[j])
    ensures forall i | 0 <= i < |actions| :: FirstPlace(results, places[i], actions[i])
  {
    places := seq(|at|, i requires 0 <= i < |at| => where[at[i]]);
    forall i | 0 <= i < |actions| ensures FirstPlace(results, places[i], actions[i]) {
      PlaceIsFirst(results, where, at[i]);
    }
  }

  ghost predicate FirstPlace(results: seq<RuleResult>, p: Place, action: string) {
    Recommends(results, p, action) && forall q | Recommends(results, q, action) :: q == p || Earlier(p, q)
  }

  lemma {:induction false} PlaceIsFirst(results: seq<RuleResult>, where: seq<Place>, k: nat)
    requires PlacesOf(results, ActionsOf(results), where) && k < |where|
    requires ActionsOf(results)[k] !in ActionsOf(results)[..k]
    ensures FirstPlace(results, where[k], ActionsOf(results)[k])
  {
    var all := ActionsOf(results);
    forall q | Recommends(results, q, all[k]) ensures q == where[k] || Earlier(where[k], q) {
      assert q in where;
      var j :| 0 <= j < |where| && where[j] == q;
      assert all[j] == all[k];
      assert forall i | 0 <= i < k :: all[..k][i] == all[i];
    }
  }
}
