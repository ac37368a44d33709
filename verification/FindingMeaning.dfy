/**
  What updates and passes do to findings: which status changes an update accepts, which
  findings a pass resolves, and what the new ones say.
 */
module FindingMeaning {
  import opened Findings
  import opened Picking
  import opened Wrappers

  const LIFECYCLE := {"open", "triaged", "assigned", "resolved", "closed"}

  /** A status moves forward, by any number of steps, and never back. */
  predicate Forward(from: string, to: string) {
    from in LIFECYCLE && to in LIFECYCLE && Rank(from) < Rank(to)
  }

  /** An update is refused if and only if it asks for another status that is not further on. */
  lemma {:induction false} RefusedExactly(db: Db, u: Update)
    requires Visible(db, u.id, u.tenant)
    ensures Refused(db, u) <==>
              u.status.Some? && u.status.value != db.findings[u.id].status
              && !Forward(db.findings[u.id].status, u.status.value)
  {
    if u.status.Some? { AllowedExactly(db.findings[u.id].status, u.status.value); }
  }

  lemma {:induction false} AllowedExactly(from: string, to: string)
    ensures to in Allowed(from) <==> Forward(from, to)
  {
  }

  // ---------------------------------------------------------------------------
  // A pass
  // ---------------------------------------------------------------------------

  /** Row i is the newest of the customer's findings for this rule, which has an id. */
  predicate NewestFor(rows: seq<Finding>, s: Scope, ruleId: string, i: nat) {
    && ruleId != "" && i < |rows|
    && rows[i].tenant == s.tenant && rows[i].customer == s.customer && rows[i].ruleId == ruleId
    && forall k | i < k < |rows| ::
         !(rows[k].tenant == s.tenant && rows[k].customer == s.customer && rows[k].ruleId == ruleId)
  }

  lemma {:induction false} LastRowExactly(rows: seq<Finding>, s: Scope, ruleId: string, i: nat)
    ensures LastRow(rows, s.tenant, s.customer, ruleId) == Some(i) <==> NewestFor(rows, s, ruleId, i)
  {
  }

  predicate PassesRule(r: RuleOutcome, ruleId: string) {
    r.status == "PASS" && r.ruleId == ruleId
  }

  /** The newest finding of a rule that passes now, and still to be settled. */
  predicate SettledBy(rows: seq<Finding>, s: Scope, results: seq<RuleOutcome>, i: nat)
    requires i < |rows|
  {
    && NewestFor(rows, s, rows[i].ruleId, i) && rows[i].status in {"open", "triaged", "assigned"}
    && exists j :: 0 <= j < |results| && PassesRule(results[j], rows[i].ruleId)
  }

  /** A pass resolves exactly these, and changes nothing else about the findings that are there. */
  lemma {:induction false} OldFindingsExactly(db: Db, s: Scope, results: seq<RuleOutcome>, i: nat)
    requires Standard(db.findings) && i < |db.findings|
    ensures var after := AfterPass(db, db.findings, s, results).findings;
            && i < |after|
            && after[i] == if SettledBy(db.findings, s, results, i) then db.findings[i].(status := "resolved")
                           else db.findings[i]
  {
    var before := db.findings;
    PassShape(db, s, results);
    forall j | 0 <= j < |results|
      ensures Resolves(before, s, results[j], i) <==>
                && NewestFor(before, s, before[i].ruleId, i) && PassesRule(results[j], before[i].ruleId)
                && before[i].status in {"open", "triaged", "assigned"}
    {
      LastRowExactly(before, s, results[j].ruleId, i);
    }
  }

  /** The result fails, and its rule has no finding yet, or the newest one is closed. */
  ghost predicate Due(rows: seq<Finding>, s: Scope, r: RuleOutcome) {
    && (r.status == "FAIL" || r.status == "PARTIAL")
    && forall i: nat | NewestFor(rows, s, r.ruleId, i) :: rows[i].status == "closed"
  }

  /** An open finding of nobody's yet, about this rule and this evaluation, titled by the description if there is one. */
  predicate Describes(row: Finding, s: Scope, r: RuleOutcome) {
    && row.tenant == s.tenant && row.customer == s.customer && row.evaluationId == s.evaluationId
    && row.ruleId == r.ruleId && row.description == r.description && row.severity == r.severity
    && row.title == (if r.description == "" then r.ruleId else r.description)
    && row.status == "open" && row.assignee.None?
  }

  lemma {:induction false} DueExactly(rows: seq<Finding>, s: Scope, r: RuleOutcome)
    ensures Due(rows, s, r) <==> NeedsRow(rows, s, r)
  {
    var k := LastRow(rows, s.tenant, s.customer, r.ruleId);
    if k.Some? {
      LastRowExactly(rows, s, r.ruleId, k.value);
    }
    forall i: nat | NewestFor(rows, s, r.ruleId, i) ensures k == Some(i) { LastRowExactly(rows, s, r.ruleId, i); }
  }

  ghost function DueMarks(rows: seq<Finding>, s: Scope, results: seq<RuleOutcome>): (marks: seq<bool>)
    ensures |marks| == |results| && forall i | 0 <= i < |results| :: marks[i] == Due(rows, s, results[i])
  {
    seq(|results|, i requires 0 <= i < |results| => Due(rows, s, results[i]))
  }

  predicate DescribesAll(rows: seq<Finding>, s: Scope, results: seq<RuleOutcome>, at: seq<nat>) {
    |at| == |rows| && forall k | 0 <= k < |at| :: at[k] < |results| && Describes(rows[k], s, results[at[k]])
  }

  /** A pass adds one finding for each failing result that is due, in the order of the results, and no others. */
  lemma {:induction false} NewFindingsExactly(db: Db, s: Scope, results: seq<RuleOutcome>) returns (at: seq<nat>)
    requires Standard(db.findings)
    ensures var after := AfterPass(db, db.findings, s, results).findings;
            && |after| >= |db.findings|
            && Picks(DueMarks(db.findings, s, results), at)
            && DescribesAll(after[|db.findings|..], s, results, at)
  {
    PassShape(db, s, results);
    at := NewRowsAt(db.findings, s, results);
    var after := AfterPass(db, db.findings, s, results).findings;
    assert after[|db.findings|..] == NewRows(db.findings, s, results);
  }

  lemma {:induction false} NewRowsAt(rows: seq<Finding>, s: Scope, results: seq<RuleOutcome>) returns (at: seq<nat>)
    ensures Picks(DueMarks(rows, s, results), at) && DescribesAll(NewRows(rows, s, results), s, results, at)
  {
    at := [];
    if results != [] {
      var n := |results| - 1;
      var before := NewRowsAt(rows, s, results[..n]);
      at := NewRowsStep(rows, s, results[..n], results[n], before);
      assert results == results[..n] + [results[n]];
    }
  }

  lemma {:induction false} NewRowsStep(rows: seq<Finding>, s: Scope, results: seq<RuleOutcome>, r: RuleOutcome,
                                       before: seq<nat>) returns (at: seq<nat>)
    requires Picks(DueMarks(rows, s, results), before) && DescribesAll(NewRows(rows, s, results), s, results, before)
    ensures Picks(DueMarks(rows, s, results + [r]), at)
    ensures DescribesAll(NewRows(rows, s, results + [r]), s, results + [r], at)
  {
    at := if Due(rows, s, r) then before + [|results|] else before;
    assert (results + [r])[..|results|] == results;
    DueExactly(rows, s, r);
    DescribesGrow(NewRows(rows, s, results), s, results, r, before);
    DueMarksGrow(rows, s, results, r);
    PicksGrow(DueMarks(rows, s, results), Due(rows, s, r), before);
  }

  lemma {:induction false} DueMarksGrow(rows: seq<Finding>, s: Scope, results: seq<RuleOutcome>, r: RuleOutcome)
    ensures DueMarks(rows, s, results + [r]) == DueMarks(rows, s, results) + [Due(rows, s, r)]
  {
  }

  lemma {:induction false} DescribesGrow(rows: seq<Finding>, s: Scope, results: seq<RuleOutcome>, r: RuleOutcome,
                                         at: seq<nat>)
    requires DescribesAll(rows, s, results, at)
    ensures DescribesAll(rows, s, results + [r], at)
    ensures DescribesAll(rows + [NewRow(s, r)], s, results + [r], at + [|results|])
  {
  }
}
