/**
  Findings: the status machine with its audit log, and the reconciliation of a customer's
  findings with the latest rule results. A row's id is its position in the table, so every
  new row has a fresh one.
 */
module Findings {
  import opened Wrappers

  datatype Finding = Finding(tenant: string, customer: string, ruleId: string, evaluationId: string, title: string,
                             description: string, severity: string, status: string, assignee: Option<string>)

  datatype StatusChange = StatusChange(findingId: nat, oldStatus: string, newStatus: string, reason: Option<string>)

  datatype RuleOutcome = RuleOutcome(ruleId: string, status: string, description: string, severity: string)

  datatype Db = Db(findings: seq<Finding>, log: seq<StatusChange>)

  const TRANSITIONS: map<string, set<string>> := map[
    "open" := {"triaged", "assigned", "resolved", "closed"},
    "triaged" := {"assigned", "resolved", "closed"},
    "assigned" := {"resolved", "closed"},
    "resolved" := {"closed"},
    "closed" := {}]

  function Allowed(status: string): set<string> {
    if status in TRANSITIONS then TRANSITIONS[status] else {}
  }

  // ---------------------------------------------------------------------------
  // One update
  // ---------------------------------------------------------------------------

  datatype Update = Update(id: nat, tenant: string, status: Option<string>, assignee: Option<string>, reason: Option<string>)

  predicate Visible(db: Db, id: nat, tenant: string) {
    id < |db.findings| && db.findings[id].tenant == tenant
  }

  predicate Changes(db: Db, u: Update)
    requires u.id < |db.findings|
  {
    u.status.Some? && u.status.value != db.findings[u.id].status
  }

  predicate Refused(db: Db, u: Update) {
    Visible(db, u.id, u.tenant) && Changes(db, u) && u.status.value !in Allowed(db.findings[u.id].status)
  }

  function Updated(db: Db, u: Update): Db {
    if !Visible(db, u.id, u.tenant) || Refused(db, u) then db
    else
      var row := db.findings[u.id];
      var status := if u.status.Some? then u.status.value else row.status;
      var assignee := if u.assignee.Some? then u.assignee else row.assignee;
      var event := if Changes(db, u) then [StatusChange(u.id, row.status, status, u.reason)] else [];
      Db(db.findings[u.id := row.(status := status, assignee := assignee)], db.log + event)
  }

  // ---------------------------------------------------------------------------
  // Reconciliation
  // ---------------------------------------------------------------------------

  predicate Matches(f: Finding, tenant: string, customer: string, ruleId: string) {
    f.tenant == tenant && f.customer == customer && f.ruleId == ruleId
  }

  /** The row a dict keyed by rule id ends up with: the last one scanned. Empty rule ids are not keys. */
  function LastRow(findings: seq<Finding>, tenant: string, customer: string, ruleId: string): (k: Option<nat>)
    ensures k.Some? ==> k.value < |findings| && Matches(findings[k.value], tenant, customer, ruleId)
    ensures k.Some? ==> forall i | k.value < i < |findings| :: !Matches(findings[i], tenant, customer, ruleId)
    ensures k.None? ==> ruleId == "" || forall i | 0 <= i < |findings| :: !Matches(findings[i], tenant, customer, ruleId)
    ensures k.Some? ==> ruleId != ""
  {
    if findings == [] || ruleId == "" then None
    else if Matches(findings[|findings| - 1], tenant, customer, ruleId) then Some(|findings| - 1)
    else LastRow(findings[..|findings| - 1], tenant, customer, ruleId)
  }

  datatype Scope = Scope(tenant: string, customer: string, evaluationId: string)

  predicate Fails(r: RuleOutcome) {
    r.status in {"FAIL", "PARTIAL"}
  }

  /** The result gets a new finding: it fails, and the known finding for its rule is closed or absent. */
  predicate NeedsRow(before: seq<Finding>, s: Scope, r: RuleOutcome) {
    var k := LastRow(before, s.tenant, s.customer, r.ruleId);
    Fails(r) && (k.None? || before[k.value].status == "closed")
  }

  /** The result resolves row i. */
  predicate Resolves(before: seq<Finding>, s: Scope, r: RuleOutcome, i: nat) {
    && r.status == "PASS" && LastRow(before, s.tenant, s.customer, r.ruleId) == Some(i)
    && before[i].status !in {"closed", "resolved"}
  }

  function NewRow(s: Scope, r: RuleOutcome): Finding {
    Finding(s.tenant, s.customer, r.ruleId, s.evaluationId, if r.description != "" then r.description else r.ruleId,
            r.description, r.severity, "open", None)
  }

  function ResolveUpdate(s: Scope, i: nat): Update {
    Update(i, s.tenant, Some("resolved"), None, Some("Rule now passing"))
  }

  /** What one result does; `before` is the scan made when the pass began. */
  function Reconciled(db: Db, before: seq<Finding>, s: Scope, r: RuleOutcome): Db {
    var k := LastRow(before, s.tenant, s.customer, r.ruleId);
    if NeedsRow(before, s, r) then db.(findings := db.findings + [NewRow(s, r)])
    else if k.Some? && Resolves(before, s, r, k.value) then Updated(db, ResolveUpdate(s, k.value))
    else db
  }

  function AfterPass(db: Db, before: seq<Finding>, s: Scope, results: seq<RuleOutcome>): Db {
    if results == [] then db
    else Reconciled(AfterPass(db, before, s, results[..|results| - 1]), before, s, results[|results| - 1])
  }

  /** A row that is not closed or resolved may be resolved. */
  lemma {:induction false} NoRefusal(before: seq<Finding>, now: seq<Finding>, log: seq<StatusChange>, s: Scope, k: nat)
    requires PassInProgress(before, now) && k < |before| && before[k].status !in {"closed", "resolved"}
    ensures !Refused(Db(now, log), ResolveUpdate(s, k)) && before[k].status in {"open", "triaged", "assigned"}
  {
  }

  class FindingService {
    var findings: seq<Finding>
    var log: seq<StatusChange>

    function Value(): Db
      reads this
    {
      Db(findings, log)
    }

    constructor ()
      ensures Value() == Db([], [])
    {
      findings, log := [], [];
    }

    method CreateFinding(row: Finding) returns (id: nat)
      modifies this
      ensures findings == old(findings) + [row] && log == old(log) && id == |old(findings)|
    {
      id := |findings|;
      findings := findings + [row];
    }

    method UpdateFinding(u: Update) returns (r: Result<Option<Finding>>)
      modifies this
      ensures Value() == Updated(old(Value()), u)
      ensures r.Err? <==> Refused(old(Value()), u)
      ensures !Visible(old(Value()), u.id, u.tenant) ==> r == Ok(None)
      ensures Visible(old(Value()), u.id, u.tenant) && r.Ok? ==> r == Ok(Some(findings[u.id]))
      ensures r.Err? ==> findings == old(findings) && log == old(log)
      ensures |findings| == |old(findings)| && forall i | 0 <= i < |findings| && i != u.id :: findings[i] == old(findings)[i]
      ensures Visible(old(Value()), u.id, u.tenant) && r.Ok? ==>
                && (u.status.Some? ==> findings[u.id].status == u.status.value)
                && (u.status.None? ==> findings[u.id].status == old(findings)[u.id].status)
                && (u.assignee.Some? ==> findings[u.id].assignee == u.assignee)
                && (u.assignee.None? ==> findings[u.id].assignee == old(findings)[u.id].assignee)
                && log == old(log) + if findings[u.id].status == old(findings)[u.id].status then []
                                     else [StatusChange(u.id, old(findings)[u.id].status, findings[u.id].status, u.reason)]
    {
      if u.id >= |findings| || findings[u.id].tenant != u.tenant {
        return Ok(None);
      }
      var row := findings[u.id];
      if u.status.Some? && u.status.value != row.status {
        if u.status.value !in Allowed(row.status) {
          return Err("ValueError");
        }
        log := log + [StatusChange(u.id, row.status, u.status.value, u.reason)];
        row := row.(status := u.status.value);
      }
      if u.assignee.Some? {
        row := row.(assignee := u.assignee);
      }
      findings := findings[u.id := row];
      r := Ok(Some(row));
    }

    /** One pass over the rule results. No update in it is ever refused. */
    method UpsertFindingsFromResult(s: Scope, results: seq<RuleOutcome>) returns (r: Result<()>)
      requires Standard(findings)
      modifies this
      ensures r == Ok(()) && Standard(findings)
      ensures Value() == AfterPass(old(Value()), old(findings), s, results)
    {
      var before := findings;
      var existing := ScanExisting(s);
      for i := 0 to |results|
        invariant Value() == AfterPass(old(Value()), before, s, results[..i])
        invariant PassInProgress(before, findings)
      {
        assert results[..i + 1][..i] == results[..i];
        r := Reconcile(before, existing, s, results[i]);
        if r.Err? {
          return;
        }
      }
      assert results[..|results|] == results;
      r := Ok(());
    }

    method Reconcile(before: seq<Finding>, existing: map<string, nat>, s: Scope, outcome: RuleOutcome)
      returns (r: Result<()>)
      requires PassInProgress(before, findings)
      requires forall id :: id in existing <==> LastRow(before, s.tenant, s.customer, id).Some?
      requires forall id | id in existing :: LastRow(before, s.tenant, s.customer, id) == Some(existing[id])
      modifies this
      ensures r == Ok(()) && PassInProgress(before, findings)
      ensures Value() == Reconciled(old(Value()), before, s, outcome)
    {
      r := Ok(());
      if Fails(outcome) {
        if outcome.ruleId in existing && before[existing[outcome.ruleId]].status != "closed" {
          return;
        }
        var id := CreateFinding(NewRow(s, outcome));
      } else if outcome.status == "PASS" && outcome.ruleId in existing {
        var k := existing[outcome.ruleId];
        if before[k].status !in {"closed", "resolved"} {
          NoRefusal(before, findings, log, s, k);
          var updated := UpdateFinding(ResolveUpdate(s, k));
          assert updated.Ok?;  // the update cannot raise
        }
      }
    }

    /** `{row.rule_id: row for row in rows if row.rule_id}` */
    method ScanExisting(s: Scope) returns (existing: map<string, nat>)
      ensures forall id :: id in existing <==> LastRow(findings, s.tenant, s.customer, id).Some?
      ensures forall id | id in existing :: LastRow(findings, s.tenant, s.customer, id) == Some(existing[id])
    {
      existing := map[];
      for i := 0 to |findings|
        invariant forall id :: id in existing <==> LastRow(findings[..i], s.tenant, s.customer, id).Some?
        invariant forall id | id in existing :: LastRow(findings[..i], s.tenant, s.customer, id) == Some(existing[id])
      {
        assert findings[..i + 1][..i] == findings[..i];
        var row := findings[i];
        if row.tenant == s.tenant && row.customer == s.customer && row.ruleId != "" {
          existing := existing[row.ruleId := i];
        }
      }
      assert findings[..|findings|] == findings;
    }
  }

  // ---------------------------------------------------------------------------
  // The status machine and its log
  // ---------------------------------------------------------------------------

  predicate Standard(findings: seq<Finding>) {
    forall i | 0 <= i < |findings| :: findings[i].status in TRANSITIONS
  }

  function Rank(status: string): int {
    match status
    case "open" => 0
    case "triaged" => 1
    case "assigned" => 2
    case "resolved" => 3
    case _ => 4
  }

  /** During a pass an old row is as scanned, or was open, triaged or assigned and is now resolved. */
  predicate PassInProgress(before: seq<Finding>, now: seq<Finding>) {
    && |before| <= |now| && Standard(before) && Standard(now)
    && forall i | 0 <= i < |before| ::
         || now[i] == before[i]
         || (now[i] == before[i].(status := "resolved") && before[i].status in {"open", "triaged", "assigned"})
  }

  /** The status of a finding after the logged changes. */
  function Replay(log: seq<StatusChange>, id: nat, status: string): string {
    if log == [] then status
    else if log[|log| - 1].findingId == id then log[|log| - 1].newStatus
    else Replay(log[..|log| - 1], id, status)
  }

  function ChangeCount(log: seq<StatusChange>, id: nat): nat {
    if log == [] then 0
    else ChangeCount(log[..|log| - 1], id) + if log[|log| - 1].findingId == id then 1 else 0
  }

  datatype Op = Creation(row: Finding) | Modify(update: Update) | Pass(scope: Scope, results: seq<RuleOutcome>)

  function Step(db: Db, op: Op): Db {
    match op
    case Creation(row) => db.(findings := db.findings + [row])
    case Modify(u) => Updated(db, u)
    case Pass(s, results) => AfterPass(db, db.findings, s, results)
  }

  function After(db: Db, ops: seq<Op>): Db
    decreases |ops|
  {
    if ops == [] then db else Step(After(db, ops[..|ops| - 1]), ops[|ops| - 1])
  }

  /** Between two states of a run: the rows persist, and the log in between explains every status. */
  ghost predicate Explained(db: Db, db': Db, id: nat)
    requires id < |db.findings|
  {
    && |db.findings| <= |db'.findings| && db.log <= db'.log
    && var since := db'.log[|db.log|..];
       var from, to := db.findings[id].status, db'.findings[id].status;
       && Replay(since, id, from) == to
       && Chained(since, id, from)
       && (from in TRANSITIONS ==> to in TRANSITIONS && Rank(from) + ChangeCount(since, id) <= Rank(to))
  }

  /** Each logged change of the finding starts from the status the earlier ones lead to. */
  ghost predicate Chained(log: seq<StatusChange>, id: nat, from: string) {
    forall i | 0 <= i < |log| && log[i].findingId == id :: log[i].oldStatus == Replay(log[..i], id, from)
  }

  lemma {:induction false} ChainedOneMore(log: seq<StatusChange>, e: StatusChange, id: nat, from: string)
    requires Chained(log, id, from) && (e.findingId == id ==> e.oldStatus == Replay(log, id, from))
    ensures Chained(log + [e], id, from)
    ensures Replay(log + [e], id, from) == if e.findingId == id then e.newStatus else Replay(log, id, from)
    ensures ChangeCount(log + [e], id) == ChangeCount(log, id) + if e.findingId == id then 1 else 0
  {
    var all := log + [e];
    assert all[..|log|] == log;
    forall i | 0 <= i < |all| && all[i].findingId == id ensures all[i].oldStatus == Replay(all[..i], id, from) {
      if i < |log| { assert all[..i] == log[..i]; }
    }
  }

  lemma {:induction false} TransitionRises(from: string, to: string)
    requires to in Allowed(from)
    ensures to in TRANSITIONS && Rank(from) + 1 <= Rank(to)
  {
  }

  /** An update logs nothing and leaves the status, or logs the one change it makes. */
  lemma {:induction false} UpdateLogsItsChange(db: Db, u: Update, id: nat)
    requires id < |db.findings|
    ensures var db' := Updated(db, u);
            var from, to := db.findings[id].status, db'.findings[id].status;
            || (db'.log == db.log && to == from)
            || (|db'.log| == |db.log| + 1 && db'.log == db.log + [db'.log[|db.log|]]
                && var e := db'.log[|db.log|];
                   if e.findingId == id then e.oldStatus == from && e.newStatus == to && to in Allowed(from) else to == from)
  {
  }

  lemma {:induction false} UpdateExplained(start: Db, db: Db, u: Update, id: nat)
    requires id < |start.findings| && Explained(start, db, id)
    ensures Explained(start, Updated(db, u), id)
  {
    UpdateLogsItsChange(db, u, id);
    ChangeExplained(start, db, Updated(db, u), id);
  }

  lemma {:induction false} ChangeExplained(start: Db, db: Db, db': Db, id: nat)
    requires id < |start.findings| && Explained(start, db, id) && |db'.findings| == |db.findings|
    requires var from, to := db.findings[id].status, db'.findings[id].status;
             || (db'.log == db.log && to == from)
             || (|db'.log| == |db.log| + 1 && db'.log == db.log + [db'.log[|db.log|]]
                 && var e := db'.log[|db.log|];
                    if e.findingId == id then e.oldStatus == from && e.newStatus == to && to in Allowed(from) else to == from)
    ensures Explained(start, db', id)
  {
    var since := db.log[|start.log|..];
    if db'.log != db.log {
      var e := db'.log[|db.log|];
      assert db'.log[|start.log|..] == since + [e];
      ChainedOneMore(since, e, id, start.findings[id].status);
      if e.findingId == id {
        TransitionRises(e.oldStatus, e.newStatus);
      }
    }
  }

  lemma {:induction false} PassExplained(start: Db, db: Db, before: seq<Finding>, s: Scope, results: seq<RuleOutcome>, id: nat)
    requires id < |start.findings| && Explained(start, db, id)
    ensures Explained(start, AfterPass(db, before, s, results), id)
  {
    if results != [] {
      var shorter, r := results[..|results| - 1], results[|results| - 1];
      PassExplained(start, db, before, s, shorter, id);
      var k := LastRow(before, s.tenant, s.customer, r.ruleId);
      if k.Some? {
        UpdateExplained(start, AfterPass(db, before, s, shorter), ResolveUpdate(s, k.value), id);
      }
    }
  }

  /** In any sequential run, replaying the logged changes from a finding's earlier status gives its present one. */
  lemma {:induction false} LogExplainsStatus(db: Db, ops: seq<Op>, id: nat)
    requires id < |db.findings|
    ensures Explained(db, After(db, ops), id)
    decreases |ops|
  {
    if ops == [] {
      assert db.log[|db.log|..] == [];
    } else {
      var op := ops[|ops| - 1];
      var mid := After(db, ops[..|ops| - 1]);
      LogExplainsStatus(db, ops[..|ops| - 1], id);
      match op
      case Creation(row) =>
      case Modify(u) => UpdateExplained(db, mid, u, id);
      case Pass(s, results) => PassExplained(db, mid, mid.findings, s, results, id);
    }
  }

  /** A finding created open changes status at most four times, and a closed one never. */
  lemma {:induction false} AtMostFourChanges(db: Db, ops: seq<Op>, id: nat)
    requires id < |db.findings| && db.findings[id].status in TRANSITIONS
    ensures var after := After(db, ops);
            && |db.findings| <= |after.findings| && |db.log| <= |after.log|
            && ChangeCount(after.log[|db.log|..], id) <= 4 - Rank(db.findings[id].status)
            && (db.findings[id].status == "closed" ==> after.findings[id].status == "closed")
  {
    LogExplainsStatus(db, ops, id);
  }

  // ---------------------------------------------------------------------------
  // What a pass leaves behind
  // ---------------------------------------------------------------------------

  predicate Touched(before: seq<Finding>, s: Scope, results: seq<RuleOutcome>, i: nat) {
    exists j | 0 <= j < |results| :: Resolves(before, s, results[j], i)
  }

  function OldRows(before: seq<Finding>, s: Scope, results: seq<RuleOutcome>): (rows: seq<Finding>)
    ensures |rows| == |before|
    ensures forall i | 0 <= i < |rows| ::
              rows[i] == if Touched(before, s, results, i) then before[i].(status := "resolved") else before[i]
  {
    seq(|before|, i requires 0 <= i < |before| =>
      if Touched(before, s, results, i) then before[i].(status := "resolved") else before[i])
  }

  function NewRows(before: seq<Finding>, s: Scope, results: seq<RuleOutcome>): seq<Finding> {
    if results == [] then []
    else
      var last := results[|results| - 1];
      NewRows(before, s, results[..|results| - 1]) + if NeedsRow(before, s, last) then [NewRow(s, last)] else []
  }

  lemma {:induction false} TouchedByOneMore(before: seq<Finding>, s: Scope, results: seq<RuleOutcome>, r: RuleOutcome, i: nat)
    ensures Touched(before, s, results + [r], i) <==> Touched(before, s, results, i) || Resolves(before, s, r, i)
  {
    var all := results + [r];
    assert all[|results|] == r && forall j | 0 <= j < |results| :: all[j] == results[j];
  }

  /** A pass resolves the passing rules' newest findings and appends the rows that are needed; nothing else. */
  lemma {:induction false} PassShape(db: Db, s: Scope, results: seq<RuleOutcome>)
    requires Standard(db.findings)
    ensures AfterPass(db, db.findings, s, results).findings
         == OldRows(db.findings, s, results) + NewRows(db.findings, s, results)
  {
    var before := db.findings;
    if results == [] {
      assert OldRows(before, s, results) == before;
    } else {
      var shorter, r := results[..|results| - 1], results[|results| - 1];
      PassShape(db, s, shorter);
      assert results == shorter + [r];
      OldRowsOneMore(before, s, shorter, r);
      ReconciledShape(AfterPass(db, before, s, shorter), before, OldRows(before, s, shorter), NewRows(before, s, shorter), s, r);
    }
  }

  /** The old rows after one more result. */
  function OldRowsStep(rows: seq<Finding>, before: seq<Finding>, s: Scope, r: RuleOutcome): seq<Finding>
    requires |rows| == |before|
  {
    var k := LastRow(before, s.tenant, s.customer, r.ruleId);
    if k.Some? && Resolves(before, s, r, k.value) then rows[k.value := before[k.value].(status := "resolved")] else rows
  }

  lemma {:induction false} OldRowsOneMore(before: seq<Finding>, s: Scope, results: seq<RuleOutcome>, r: RuleOutcome)
    ensures OldRows(before, s, results + [r]) == OldRowsStep(OldRows(before, s, results), before, s, r)
  {
    forall i | 0 <= i < |before|
      ensures OldRows(before, s, results + [r])[i] == OldRowsStep(OldRows(before, s, results), before, s, r)[i]
    {
      TouchedByOneMore(before, s, results, r, i);
    }
  }

  lemma {:induction false} ReconciledShape(db: Db, before: seq<Finding>, old_: seq<Finding>, new_: seq<Finding>, s: Scope,
                                           r: RuleOutcome)
    requires Standard(before) && |old_| == |before| && db.findings == old_ + new_
    requires forall i | 0 <= i < |before| :: old_[i] == before[i] || old_[i] == before[i].(status := "resolved")
    ensures Reconciled(db, before, s, r).findings
         == OldRowsStep(old_, before, s, r) + (new_ + if NeedsRow(before, s, r) then [NewRow(s, r)] else [])
  {
    var k := LastRow(before, s.tenant, s.customer, r.ruleId);
    if k.Some? && Resolves(before, s, r, k.value) {
      assert before[k.value].status in {"open", "triaged", "assigned"};
      assert !Refused(db, ResolveUpdate(s, k.value));
    }
  }

  /** Per rule, every finding but the newest is closed. */
  ghost predicate OneOpen(findings: seq<Finding>, s: Scope) {
    forall i, j | 0 <= i < j < |findings| && findings[i].ruleId != ""
                  && Matches(findings[i], s.tenant, s.customer, findings[i].ruleId)
                  && Matches(findings[j], s.tenant, s.customer, findings[i].ruleId) :: findings[i].status == "closed"
  }

  ghost predicate DistinctRules(results: seq<RuleOutcome>) {
    forall i, j | 0 <= i < j < |results| :: results[i].ruleId != results[j].ruleId
  }

  /** No rule asks for two new findings in one pass. */
  ghost predicate NoDoubleNeed(before: seq<Finding>, s: Scope, results: seq<RuleOutcome>) {
    forall i, j | 0 <= i < j < |results| && NeedsRow(before, s, results[i]) && NeedsRow(before, s, results[j]) ::
      results[i].ruleId != results[j].ruleId || results[i].ruleId == ""
  }

  /** Where the row for result i lands. */
  lemma {:induction false} RowFor(before: seq<Finding>, s: Scope, results: seq<RuleOutcome>, i: nat)
    requires i < |results| && NeedsRow(before, s, results[i])
    ensures var m := |NewRows(before, s, results[..i])|;
            m < |NewRows(before, s, results)| && NewRows(before, s, results)[m] == NewRow(s, results[i])
            && m < |NewRows(before, s, results[..i + 1])|
  {
    assert results[..i + 1][..i] == results[..i];
    if i + 1 < |results| {
      var shorter := results[..|results| - 1];
      RowFor(before, s, shorter, i);
      assert shorter[..i] == results[..i];
    } else {
      assert results[..i + 1] == results;
    }
  }

  lemma {:induction false} NewRowsGrow(before: seq<Finding>, s: Scope, results: seq<RuleOutcome>, i: nat, j: nat)
    requires i <= j <= |results|
    ensures |NewRows(before, s, results[..i])| <= |NewRows(before, s, results[..j])|
    decreases j - i
  {
    if i < j {
      NewRowsGrow(before, s, results, i, j - 1);
      assert results[..j][..j - 1] == results[..j - 1];
    }
  }

  /** Which result a new row came from. */
  lemma {:induction false} SourceOf(before: seq<Finding>, s: Scope, results: seq<RuleOutcome>, m: nat) returns (i: nat)
    requires m < |NewRows(before, s, results)|
    ensures i < |results| && NeedsRow(before, s, results[i]) && m == |NewRows(before, s, results[..i])|
    ensures NewRows(before, s, results)[m] == NewRow(s, results[i])
  {
    var shorter := results[..|results| - 1];
    if m < |NewRows(before, s, shorter)| {
      i := SourceOf(before, s, shorter, m);
      assert shorter[..i] == results[..i];
    } else {
      i := |results| - 1;
    }
  }

  /** A pass keeps at most one non-closed finding per rule exactly when no rule asks for two new ones. */
  lemma {:induction false} PassKeepsOneOpenExactly(db: Db, s: Scope, results: seq<RuleOutcome>)
    requires Standard(db.findings) && OneOpen(db.findings, s)
    ensures OneOpen(AfterPass(db, db.findings, s, results).findings, s) <==> NoDoubleNeed(db.findings, s, results)
  {
    PassShape(db, s, results);
    if NoDoubleNeed(db.findings, s, results) {
      SingleNeedKeepsOneOpen(db.findings, s, results);
    } else {
      var i, j :| 0 <= i < j < |results| && NeedsRow(db.findings, s, results[i]) && NeedsRow(db.findings, s, results[j])
                  && results[i].ruleId == results[j].ruleId && results[i].ruleId != "";
      DoubleNeedLeavesTwo(db.findings, s, results, i, j);
    }
  }

  lemma {:induction false} DoubleNeedLeavesTwo(before: seq<Finding>, s: Scope, results: seq<RuleOutcome>, i: nat, j: nat)
    requires i < j < |results| && NeedsRow(before, s, results[i]) && NeedsRow(before, s, results[j])
    requires results[i].ruleId == results[j].ruleId && results[i].ruleId != ""
    ensures !OneOpen(OldRows(before, s, results) + NewRows(before, s, results), s)
  {
    RowFor(before, s, results, i);
    RowFor(before, s, results, j);
    NewRowsGrow(before, s, results, i + 1, j);
    var after := OldRows(before, s, results) + NewRows(before, s, results);
    var m, n := |NewRows(before, s, results[..i])|, |NewRows(before, s, results[..j])|;
    assert after[|before| + m] == NewRow(s, results[i]) && after[|before| + n] == NewRow(s, results[j]);
  }

  lemma {:induction false} SingleNeedKeepsOneOpen(before: seq<Finding>, s: Scope, results: seq<RuleOutcome>)
    requires OneOpen(before, s) && NoDoubleNeed(before, s, results)
    ensures OneOpen(OldRows(before, s, results) + NewRows(before, s, results), s)
  {
    var old_, new_ := OldRows(before, s, results), NewRows(before, s, results);
    var after := old_ + new_;
    forall i, j | |before| <= i < j < |after| ensures after[i].ruleId != after[j].ruleId || after[i].ruleId == "" {
      NewRowsDiffer(before, s, results, i - |before|, j - |before|);
    }
    forall i, j | 0 <= i < j < |after| && after[i].ruleId != ""
                  && Matches(after[i], s.tenant, s.customer, after[i].ruleId)
                  && Matches(after[j], s.tenant, s.customer, after[i].ruleId)
      ensures after[i].status == "closed"
    {
      if i < |before| {
        assert after[i] == old_[i];
        if j < |before| {
          assert after[j] == old_[j];
          assert Matches(before[j], s.tenant, s.customer, before[i].ruleId);
          assert before[i].status == "closed";
        } else {
          assert after[j] == new_[j - |before|];
          var b := SourceOf(before, s, results, j - |before|);
          var k := LastRow(before, s.tenant, s.customer, before[i].ruleId);
          assert before[i].status == "closed";
        }
      }
    }
  }

  lemma {:induction false} NewRowsDiffer(before: seq<Finding>, s: Scope, results: seq<RuleOutcome>, m: nat, n: nat)
    requires NoDoubleNeed(before, s, results) && m < n < |NewRows(before, s, results)|
    ensures var rows := NewRows(before, s, results); rows[m].ruleId != rows[n].ruleId || rows[m].ruleId == ""
  {
    var a := SourceOf(before, s, results, m);
    var b := SourceOf(before, s, results, n);
    NewRowOrder(before, s, results, a, b);
  }

  lemma {:induction false} NewRowOrder(before: seq<Finding>, s: Scope, results: seq<RuleOutcome>, a: nat, b: nat)
    requires a < |results| && b < |results|
    requires |NewRows(before, s, results[..a])| < |NewRows(before, s, results[..b])|
    ensures a < b
  {
    if b <= a {
      NewRowsGrow(before, s, results, b, a);
    }
  }

  lemma {:induction false} DistinctIsEnough(before: seq<Finding>, s: Scope, results: seq<RuleOutcome>)
    requires DistinctRules(results)
    ensures NoDoubleNeed(before, s, results)
  {
  }

  /** After a pass every failing rule has a finding that is not closed. */
  lemma {:induction false} FailingRulesAreOpen(db: Db, s: Scope, results: seq<RuleOutcome>, i: nat) returns (row: nat)
    requires Standard(db.findings) && i < |results| && Fails(results[i])
    ensures var after := AfterPass(db, db.findings, s, results).findings;
            row < |after| && Matches(after[row], s.tenant, s.customer, results[i].ruleId) && after[row].status != "closed"
  {
    PassShape(db, s, results);
    var k := LastRow(db.findings, s.tenant, s.customer, results[i].ruleId);
    if NeedsRow(db.findings, s, results[i]) {
      RowFor(db.findings, s, results, i);
      row := |db.findings| + |NewRows(db.findings, s, results[..i])|;
    } else {
      row := k.value;
    }
  }

  /** After a pass no finding of a passing rule is open, triaged or assigned. */
  lemma {:induction false} PassingRulesAreSettled(db: Db, s: Scope, results: seq<RuleOutcome>, i: nat, row: nat)
    requires Standard(db.findings) && OneOpen(db.findings, s) && DistinctRules(results)
    requires i < |results| && results[i].status == "PASS" && results[i].ruleId != ""
    requires row < |AfterPass(db, db.findings, s, results).findings|
    requires Matches(AfterPass(db, db.findings, s, results).findings[row], s.tenant, s.customer, results[i].ruleId)
    ensures AfterPass(db, db.findings, s, results).findings[row].status in {"resolved", "closed"}
  {
    var before := db.findings;
    PassShape(db, s, results);
    forall m | 0 <= m < |NewRows(before, s, results)| ensures NewRows(before, s, results)[m].ruleId != results[i].ruleId {
      var j := SourceOf(before, s, results, m);
    }
    if row < |before| {
      var k := LastRow(before, s.tenant, s.customer, results[i].ruleId);
      assert row <= k.value;
      if row == k.value && before[row].status !in {"closed", "resolved"} {
        assert Resolves(before, s, results[i], row);
        assert Touched(before, s, results, row);
      }
    }
  }

  predicate Quiet(before: seq<Finding>, s: Scope, r: RuleOutcome) {
    !NeedsRow(before, s, r) && forall i | 0 <= i < |before| :: !Resolves(before, s, r, i)
  }

  lemma {:induction false} QuietPassChangesNothing(db: Db, before: seq<Finding>, s: Scope, results: seq<RuleOutcome>)
    requires forall i | 0 <= i < |results| :: Quiet(before, s, results[i])
    ensures AfterPass(db, before, s, results) == db
  {
    if results != [] {
      QuietPassChangesNothing(db, before, s, results[..|results| - 1]);
    }
  }

  /** A second pass with the same results changes nothing, exactly when no failing result lacks a rule id. */
  lemma {:induction false} SecondPassChangesNothingExactly(db: Db, s: Scope, results: seq<RuleOutcome>)
    requires Standard(db.findings) && OneOpen(db.findings, s) && DistinctRules(results)
    ensures var once := AfterPass(db, db.findings, s, results);
            AfterPass(once, once.findings, s, results) == once
            <==> forall i | 0 <= i < |results| && Fails(results[i]) :: results[i].ruleId != ""
  {
    var once := AfterPass(db, db.findings, s, results);
    PassShape(db, s, results);
    AfterPassStandard(db, s, results);
    if i :| 0 <= i < |results| && Fails(results[i]) && results[i].ruleId == "" {
      PassShape(once, s, results);
      RowFor(once.findings, s, results, i);
      assert |AfterPass(once, once.findings, s, results).findings| > |once.findings|;
    } else {
      forall i | 0 <= i < |results| ensures Quiet(once.findings, s, results[i]) {
        SettledResultIsQuiet(db, s, results, i);
      }
      QuietPassChangesNothing(once, once.findings, s, results);
    }
  }

  lemma {:induction false} AfterPassStandard(db: Db, s: Scope, results: seq<RuleOutcome>)
    requires Standard(db.findings)
    ensures Standard(AfterPass(db, db.findings, s, results).findings)
  {
    PassShape(db, s, results);
    forall i | 0 <= i < |NewRows(db.findings, s, results)| ensures NewRows(db.findings, s, results)[i].status == "open" {
      var j := SourceOf(db.findings, s, results, i);
    }
  }

  lemma {:induction false} SettledResultIsQuiet(db: Db, s: Scope, results: seq<RuleOutcome>, i: nat)
    requires Standard(db.findings) && OneOpen(db.findings, s) && DistinctRules(results)
    requires i < |results| && (Fails(results[i]) ==> results[i].ruleId != "")
    ensures Quiet(AfterPass(db, db.findings, s, results).findings, s, results[i])
  {
    var after := AfterPass(db, db.findings, s, results).findings;
    var r := results[i];
    var k := LastRow(after, s.tenant, s.customer, r.ruleId);
    if Fails(r) {
      var row := FailingRulesAreOpen(db, s, results, i);
      DistinctIsEnough(db.findings, s, results);
      PassKeepsOneOpenExactly(db, s, results);
      assert row <= k.value;
      assert after[k.value].status != "closed";
    } else if r.status == "PASS" && k.Some? {
      PassingRulesAreSettled(db, s, results, i, k.value);
    }
  }

  // ---------------------------------------------------------------------------
  // Whole runs
  // ---------------------------------------------------------------------------

  lemma {:induction false} UpdateKeepsOneOpen(db: Db, u: Update, s: Scope)
    requires Standard(db.findings) && OneOpen(db.findings, s)
    ensures Standard(Updated(db, u).findings) && OneOpen(Updated(db, u).findings, s)
  {
    var after := Updated(db, u).findings;
    forall i | 0 <= i < |after|
      ensures after[i].status in TRANSITIONS && (db.findings[i].status == "closed" ==> after[i].status == "closed")
      ensures after[i].(status := "", assignee := None) == db.findings[i].(status := "", assignee := None)
    {
    }
  }

  /** A pass for another customer leaves this one's findings alone. */
  lemma {:induction false} OtherPassKeepsOneOpen(before: seq<Finding>, s: Scope, results: seq<RuleOutcome>, mine: Scope)
    requires OneOpen(before, mine) && (s.tenant != mine.tenant || s.customer != mine.customer)
    ensures OneOpen(OldRows(before, s, results) + NewRows(before, s, results), mine)
  {
    var after := OldRows(before, s, results) + NewRows(before, s, results);
    forall i | |before| <= i < |after| ensures after[i].tenant == s.tenant && after[i].customer == s.customer {
      var j := SourceOf(before, s, results, i - |before|);
    }
    forall i | 0 <= i < |before|
      ensures after[i].(status := "") == before[i].(status := "")
      ensures before[i].tenant == mine.tenant && before[i].customer == mine.customer ==> after[i] == before[i]
    {
    }
  }

  /** Every run of updates and passes over distinct rules keeps at most one non-closed finding per rule: the newest. */
  lemma {:induction false} RunKeepsOneOpen(db: Db, ops: seq<Op>, s: Scope)
    requires Standard(db.findings) && OneOpen(db.findings, s)
    requires forall i | 0 <= i < |ops| :: ops[i].Modify? || (ops[i].Pass? && DistinctRules(ops[i].results))
    ensures Standard(After(db, ops).findings) && OneOpen(After(db, ops).findings, s)
    decreases |ops|
  {
    if ops != [] {
      var op := ops[|ops| - 1];
      var mid := After(db, ops[..|ops| - 1]);
      RunKeepsOneOpen(db, ops[..|ops| - 1], s);
      match op
      case Modify(u) => UpdateKeepsOneOpen(mid, u, s);
      case Pass(scope, results) =>
        AfterPassStandard(mid, scope, results);
        if scope.tenant == s.tenant && scope.customer == s.customer {
          DistinctIsEnough(mid.findings, scope, results);
          PassKeepsOneOpenExactly(mid, scope, results);
        } else {
          PassShape(mid, scope, results);
          OtherPassKeepsOneOpen(mid.findings, scope, results, s);
        }
    }
  }
}
