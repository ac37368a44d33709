/**
  Reconciliation passes that overlap: each scans the findings once and then commits its results
  one by one, while other passes and updates do the same.
 */
module FindingRuns {
  import opened Findings
  import opened Wrappers

  /** A pass under way: what it scanned, and the results it has yet to reconcile. */
  datatype Ongoing = Ongoing(scope: Scope, before: seq<Finding>, remaining: seq<RuleOutcome>)

  datatype State = State(db: Db, passes: map<nat, Ongoing>)

  datatype Action =
    | Change(update: Update)
    | Scan(call: nat, scope: Scope, results: seq<RuleOutcome>)
    | Reconcile(call: nat)

  const EMPTY := State(Db([], []), map[])

  /** The next result of a pass. */
  function Due(s: State, a: Action): Option<RuleOutcome> {
    if a.Reconcile? && a.call in s.passes && s.passes[a.call].remaining != []
    then Some(s.passes[a.call].remaining[0]) else None
  }

  /** The update a pass makes is refused, because the row has moved on since the scan; that ends the pass. */
  predicate Raises(db: Db, p: Ongoing, r: RuleOutcome) {
    var k := LastRow(p.before, p.scope.tenant, p.scope.customer, r.ruleId);
    k.Some? && Resolves(p.before, p.scope, r, k.value) && Refused(db, ResolveUpdate(p.scope, k.value))
  }

  function Next(s: State, a: Action): State {
    match a
    case Change(u) => s.(db := Updated(s.db, u))
    case Scan(call, scope, results) =>
      if call in s.passes then s else s.(passes := s.passes[call := Ongoing(scope, s.db.findings, results)])
    case Reconcile(call) =>
      if Due(s, a).None? then s.(passes := s.passes - {call})
      else
        var p := s.passes[call];
        var db := Reconciled(s.db, p.before, p.scope, p.remaining[0]);
        if Raises(s.db, p, p.remaining[0]) then State(db, s.passes - {call})
        else State(db, s.passes[call := p.(remaining := p.remaining[1..])])
  }

  function After(s: State, run: seq<Action>): State
    decreases |run|
  {
    if run == [] then s else Next(After(s, run[..|run| - 1]), run[|run| - 1])
  }

  /** The step gives a rule a new finding, as its scan asks for, while the rule has one that is not closed. */
  predicate CreatesStale(s: State, a: Action, scope: Scope) {
    && Due(s, a).Some?
    && var p, r := s.passes[a.call], Due(s, a).value;
       && p.scope.tenant == scope.tenant && p.scope.customer == scope.customer
       && NeedsRow(p.before, p.scope, r) && r.ruleId != ""
       && exists i | 0 <= i < |s.db.findings| ::
            Matches(s.db.findings[i], scope.tenant, scope.customer, r.ruleId) && s.db.findings[i].status != "closed"
  }

  lemma {:induction false} AppendKeepsOneOpenExactly(findings: seq<Finding>, row: Finding, scope: Scope)
    requires OneOpen(findings, scope)
    ensures OneOpen(findings + [row], scope) <==>
              !(&& row.ruleId != "" && Matches(row, scope.tenant, scope.customer, row.ruleId)
                && exists i | 0 <= i < |findings| ::
                     Matches(findings[i], scope.tenant, scope.customer, row.ruleId) && findings[i].status != "closed")
  {
    var after := findings + [row];
    assert forall i | 0 <= i < |findings| :: after[i] == findings[i];
    if row.ruleId != "" && Matches(row, scope.tenant, scope.customer, row.ruleId) {
      if i :| 0 <= i < |findings| && Matches(findings[i], scope.tenant, scope.customer, row.ruleId)
              && findings[i].status != "closed" {
        assert Matches(after[|findings|], scope.tenant, scope.customer, after[i].ruleId);
      }
    }
  }

  /** One step keeps at most one non-closed finding per rule if and only if it creates none from a stale scan. */
  lemma {:induction false} StepKeepsOneOpenExactly(s: State, a: Action, scope: Scope)
    requires Standard(s.db.findings) && OneOpen(s.db.findings, scope)
    ensures Standard(Next(s, a).db.findings)
    ensures OneOpen(Next(s, a).db.findings, scope) <==> !CreatesStale(s, a, scope)
  {
    if a.Change? {
      UpdateKeepsOneOpen(s.db, a.update, scope);
    } else if Due(s, a).Some? {
      var p, r := s.passes[a.call], Due(s, a).value;
      var k := LastRow(p.before, p.scope.tenant, p.scope.customer, r.ruleId);
      if NeedsRow(p.before, p.scope, r) {
        AppendKeepsOneOpenExactly(s.db.findings, NewRow(p.scope, r), scope);
      } else if k.Some? && Resolves(p.before, p.scope, r, k.value) {
        UpdateKeepsOneOpen(s.db, ResolveUpdate(p.scope, k.value), scope);
      }
    }
  }

  ghost predicate AlwaysOneOpen(s: State, run: seq<Action>, scope: Scope)
    decreases |run|
  {
    OneOpen(After(s, run).db.findings, scope) && (run != [] ==> AlwaysOneOpen(s, run[..|run| - 1], scope))
  }

  predicate NeverStale(s: State, run: seq<Action>, scope: Scope)
    decreases |run|
  {
    run == [] ||
    (NeverStale(s, run[..|run| - 1], scope) && !CreatesStale(After(s, run[..|run| - 1]), run[|run| - 1], scope))
  }

  /**
    Over every run of overlapping passes and updates: a customer has at most one non-closed finding per rule all
    along if and only if no finding was created from a stale scan.
   */
  lemma {:induction false} RunIsOneOpenExactly(s: State, run: seq<Action>, scope: Scope)
    requires Standard(s.db.findings) && OneOpen(s.db.findings, scope)
    ensures Standard(After(s, run).db.findings)
    ensures AlwaysOneOpen(s, run, scope) <==> NeverStale(s, run, scope)
    decreases |run|
  {
    if run != [] {
      var before := run[..|run| - 1];
      RunIsOneOpenExactly(s, before, scope);
      RunStandard(s, run);
      if AlwaysOneOpen(s, before, scope) {
        OneOpenNow(s, before, scope);
        StepKeepsOneOpenExactly(After(s, before), run[|run| - 1], scope);
      }
    }
  }

  lemma {:induction false} OneOpenNow(s: State, run: seq<Action>, scope: Scope)
    requires AlwaysOneOpen(s, run, scope)
    ensures OneOpen(After(s, run).db.findings, scope)
  {
  }

  lemma {:induction false} RunStandard(s: State, run: seq<Action>)
    requires Standard(s.db.findings)
    ensures Standard(After(s, run).db.findings)
    decreases |run|
  {
    if run != [] {
      RunStandard(s, run[..|run| - 1]);
      StepStandard(After(s, run[..|run| - 1]), run[|run| - 1]);
    }
  }

  lemma {:induction false} StepStandard(s: State, a: Action)
    requires Standard(s.db.findings)
    ensures Standard(Next(s, a).db.findings)
  {
    if Due(s, a).Some? {
      var p := s.passes[a.call];
      var k := LastRow(p.before, p.scope.tenant, p.scope.customer, Due(s, a).value.ruleId);
      if k.Some? { UpdatedStandard(s.db, ResolveUpdate(p.scope, k.value)); }
    } else if a.Change? {
      UpdatedStandard(s.db, a.update);
    }
  }

  lemma {:induction false} UpdatedStandard(db: Db, u: Update)
    requires Standard(db.findings)
    ensures Standard(Updated(db, u).findings)
  {
    assert Visible(db, u.id, u.tenant) && !Refused(db, u) && Changes(db, u) ==> u.status.value in TRANSITIONS;
  }

  /** A pass stops with an error if and only if a finding it would resolve has been closed since its scan. */
  lemma {:induction false} RaisesExactly(db: Db, p: Ongoing, r: RuleOutcome)
    requires Standard(db.findings) && |p.before| <= |db.findings|
    requires forall i | 0 <= i < |p.before| :: db.findings[i].tenant == p.before[i].tenant
    ensures var k := LastRow(p.before, p.scope.tenant, p.scope.customer, r.ruleId);
            Raises(db, p, r) <==>
              k.Some? && Resolves(p.before, p.scope, r, k.value) && db.findings[k.value].status == "closed"
  {
    var k := LastRow(p.before, p.scope.tenant, p.scope.customer, r.ruleId);
    if k.Some? {
      assert db.findings[k.value].status in TRANSITIONS;
    }
  }

  /** Two passes that scan before either commits leave two open findings for one failing rule. */
  lemma {:induction false} OverlapLeavesTwo() returns (run: seq<Action>)
    ensures var findings := After(EMPTY, run).db.findings;
            && |findings| == 2 && findings[0].ruleId == "r" && findings[1].ruleId == "r"
            && findings[0].status == "open" && findings[1].status == "open"
  {
    var scope, r := Scope("t", "c", "e"), RuleOutcome("r", "FAIL", "d", "high");
    var a0, a1, a2, a3 := Scan(0, scope, [r]), Scan(1, scope, [r]), Reconcile(0), Reconcile(1);
    var waiting := Ongoing(scope, [], [r]);
    OneMore([], a0);
    OneMore([a0], a1);
    assert [a0] + [a1] == [a0, a1] && [] + [a0] == [a0];
    var scanned := After(EMPTY, [a0, a1]);
    assert scanned.db == Db([], []) && 0 in scanned.passes && 1 in scanned.passes;
    assert scanned.passes[0] == waiting && scanned.passes[1] == waiting;
    OneMore([a0, a1], a2);
    var one := Next(scanned, a2);
    assert one.db.findings == [NewRow(scope, r)] && 1 in one.passes && one.passes[1] == waiting;
    run := [a0, a1] + [a2] + [a3];
    OneMore([a0, a1] + [a2], a3);
    assert Next(one, a3).db.findings == [NewRow(scope, r)] + [NewRow(scope, r)];
  }

  lemma {:induction false} OneMore(run: seq<Action>, a: Action)
    ensures After(EMPTY, run + [a]) == Next(After(EMPTY, run), a)
  {
    assert (run + [a])[..|run|] == run;
  }
}
