/**
  Who made which version. The runs of DocumentVersions are read off their actions: a call
  is begun by an actor with a request, and the version it inserts is that actor's and that
  request's, whatever other calls do in between.
 */
module DocumentHistory {
  import opened Wrappers
  import opened DocumentVersions

  /** Version x was made in this document on this request by this actor. */
  ghost predicate Written(t: Table, x: VersionId, tenant: string, document: string, request: Request, actor: string) {
    && x in t && Of(t[x], tenant, document) && t[x].regeneratedFrom.Some? && t[x].regeneratedFrom.value in t
    && MadeBy(t[x], t[t[x].regeneratedFrom.value], request, actor)
  }

  /** What a call in flight remembers of how it was begun. */
  ghost predicate Remembers(call: Call, tenant: string, document: string, request: Request, actor: string) {
    match call
    case Started(_, _, _, _) => call == Started(tenant, document, request, actor)
    case Holding(r, a, _, current) => r == request && a == actor && Of(current, tenant, document)
    case _ => true
  }

  ghost predicate BeginsRemembered(s: State, past: seq<Action>) {
    forall c, tenant, document, request, actor | Begin(c, tenant, document, request, actor) in past ::
      c in s.calls && Remembers(s.calls[c], tenant, document, request, actor)
  }

  ghost predicate Begun(past: seq<Action>, c: nat) {
    exists tenant, document, request, actor :: Begin(c, tenant, document, request, actor) in past
  }

  ghost predicate CallsBegun(s: State, past: seq<Action>) {
    forall c | c in s.calls :: Begun(past, c)
  }

  /** A call inserts once: after that it only marks. */
  ghost predicate InsertsDone(s: State, past: seq<Action>) {
    forall c, x | Insert(c, x) in past :: c in s.calls && (s.calls[c].Inserted? || s.calls[c].Finished?)
  }

  ghost predicate InsertsWritten(t: Table, past: seq<Action>) {
    forall c, x, tenant, document, request, actor
      | Insert(c, x) in past && Begin(c, tenant, document, request, actor) in past ::
      Written(t, x, tenant, document, request, actor)
  }

  ghost predicate InsertedIn(past: seq<Action>, x: VersionId) {
    exists c :: Insert(c, x) in past
  }

  ghost predicate MadeWereInserted(t: Table, past: seq<Action>) {
    forall x | x in t && t[x].regeneratedFrom.Some? :: InsertedIn(past, x)
  }

  ghost predicate Recorded(s: State, past: seq<Action>) {
    && BeginsRemembered(s, past) && CallsBegun(s, past) && InsertsDone(s, past)
    && InsertsWritten(s.table, past) && MadeWereInserted(s.table, past)
  }

  lemma {:induction false} CallsStayRemembered(s: State, past: seq<Action>, a: Action)
    requires Inv(s) && Recorded(s, past) && Enabled(s, a)
    ensures BeginsRemembered(Next(s, a), past + [a])
  {
    var s' := Next(s, a);
    forall c, tenant, document, request, actor | Begin(c, tenant, document, request, actor) in past + [a]
      ensures c in s'.calls && Remembers(s'.calls[c], tenant, document, request, actor)
    {
      if a != Begin(c, tenant, document, request, actor) {
        assert Begin(c, tenant, document, request, actor) in past;
        assert c in s.calls && Remembers(s.calls[c], tenant, document, request, actor);
      }
    }
  }

  lemma {:induction false} CallsStayBegun(s: State, past: seq<Action>, a: Action)
    requires Recorded(s, past) && Enabled(s, a)
    ensures CallsBegun(Next(s, a), past + [a])
  {
    forall c | c in Next(s, a).calls ensures Begun(past + [a], c) {
      if c in s.calls {
        assert Begun(past, c);
        var tenant, document, request, actor :| Begin(c, tenant, document, request, actor) in past;
        assert Begin(c, tenant, document, request, actor) in past + [a];
      } else {
        assert a in past + [a];
      }
    }
  }

  lemma {:induction false} InsertsStayDone(s: State, past: seq<Action>, a: Action)
    requires Recorded(s, past) && Enabled(s, a)
    ensures InsertsDone(Next(s, a), past + [a])
  {
    var s' := Next(s, a);
    forall c, x | Insert(c, x) in past + [a]
      ensures c in s'.calls && (s'.calls[c].Inserted? || s'.calls[c].Finished?)
    {
      if a != Insert(c, x) { assert Insert(c, x) in past; }
    }
  }

  lemma {:induction false} MadeStayInserted(s: State, past: seq<Action>, a: Action)
    requires Inv(s) && Recorded(s, past) && Enabled(s, a)
    ensures MadeWereInserted(Next(s, a).table, past + [a])
  {
    var t, t' := s.table, Next(s, a).table;
    forall x | x in t' && t'[x].regeneratedFrom.Some? ensures InsertedIn(past + [a], x) {
      if x in t {
        assert t[x].regeneratedFrom == t'[x].regeneratedFrom;
        assert InsertedIn(past, x);
        var c :| Insert(c, x) in past;
        assert Insert(c, x) in past + [a];
      } else {
        assert a in past + [a];
      }
    }
  }

  /** Nothing rewrites what a version says about its making: only the mark of its successor is added. */
  lemma {:induction false} WrittenStays(s: State, a: Action, x: VersionId, tenant: string, document: string,
                                        request: Request, actor: string)
    requires Enabled(s, a) && Written(s.table, x, tenant, document, request, actor)
    ensures Written(Next(s, a).table, x, tenant, document, request, actor)
  {
    var t, t' := s.table, Next(s, a).table;
    assert forall y | y in t :: y in t' && t'[y].(supersededBy := None) == t[y].(supersededBy := None);
  }

  /** The row a call inserts is its own actor's, made on its own request, from a parent that is still there. */
  lemma {:induction false} InsertIsWritten(s: State, past: seq<Action>, c: nat, x: VersionId, tenant: string,
                                           document: string, request: Request, actor: string)
    requires Inv(s) && Recorded(s, past) && Enabled(s, Insert(c, x))
    requires Begin(c, tenant, document, request, actor) in past
    ensures Written(Next(s, Insert(c, x)).table, x, tenant, document, request, actor)
  {
    var call := s.calls[c];
    assert Remembers(call, tenant, document, request, actor);
    assert CallAgrees(s.table, call);
    var t' := Next(s, Insert(c, x)).table;
    assert t'[x].regeneratedFrom == Some(call.currentId) && t'[call.currentId] == s.table[call.currentId];
    assert MadeBy(t'[x], call.current, request, actor);
  }

  lemma {:induction false} InsertsStayWritten(s: State, past: seq<Action>, a: Action)
    requires Inv(s) && Recorded(s, past) && Enabled(s, a)
    ensures InsertsWritten(Next(s, a).table, past + [a])
  {
    forall c, x, tenant, document, request, actor
      | Insert(c, x) in past + [a] && Begin(c, tenant, document, request, actor) in past + [a]
      ensures Written(Next(s, a).table, x, tenant, document, request, actor)
    {
      if a == Insert(c, x) {
        InsertIsWritten(s, past, c, x, tenant, document, request, actor);
      } else {
        assert Insert(c, x) in past;
        assert Begin(c, tenant, document, request, actor) in past;
        WrittenStays(s, a, x, tenant, document, request, actor);
      }
    }
  }

  lemma {:induction false} RunIsRecorded(s: State, past: seq<Action>, run: seq<Action>)
    requires Inv(s) && Recorded(s, past) && Possible(s, run)
    ensures Recorded(After(s, run), past + run)
    decreases |run|
  {
    if run == [] {
      assert past + run == past;
    } else {
      var a := run[0];
      CallsStayRemembered(s, past, a);
      CallsStayBegun(s, past, a);
      InsertsStayDone(s, past, a);
      InsertsStayWritten(s, past, a);
      MadeStayInserted(s, past, a);
      StepKeepsInv(s, a);
      RunIsRecorded(Next(s, a), past + [a], run[1..]);
      assert past + run == past + [a] + run[1..];
    }
  }

  // ---------------------------------------------------------------------------
  // What the actions of a run say about its versions
  // ---------------------------------------------------------------------------

  /** Under every interleaving, the version a call inserts is what its actor asked for. */
  lemma {:induction false} VersionIsItsCallers(run: seq<Action>, c: nat, x: VersionId, tenant: string,
                                               document: string, request: Request, actor: string)
    requires Possible(EMPTY, run)
    requires Begin(c, tenant, document, request, actor) in run && Insert(c, x) in run
    ensures var t := After(EMPTY, run).table;
            && x in t && t[x].regeneratedFrom.Some? && t[x].regeneratedFrom.value in t
            && Of(t[x], tenant, document)
            && MadeBy(t[x], t[t[x].regeneratedFrom.value], request, actor)
  {
    RunIsRecorded(EMPTY, [], run);
    assert [] + run == run;
    assert Written(After(EMPTY, run).table, x, tenant, document, request, actor);
  }

  /** And every version that has a parent was inserted by a call that someone began. */
  lemma {:induction false} VersionHasItsCall(run: seq<Action>, x: VersionId)
      returns (c: nat, request: Request, actor: string)
    requires Possible(EMPTY, run)
    requires x in After(EMPTY, run).table && After(EMPTY, run).table[x].regeneratedFrom.Some?
    ensures var t := After(EMPTY, run).table;
            && Insert(c, x) in run && Begin(c, t[x].tenant, t[x].document, request, actor) in run
            && t[x].regeneratedFrom.value in t
            && MadeBy(t[x], t[t[x].regeneratedFrom.value], request, actor)
  {
    var s := After(EMPTY, run);
    RunIsRecorded(EMPTY, [], run);
    assert [] + run == run;
    assert InsertedIn(run, x);
    c :| Insert(c, x) in run;
    assert Begun(run, c);
    var tenant, document, r, a :| Begin(c, tenant, document, r, a) in run;
    request, actor := r, a;
    VersionIsItsCallers(run, c, x, tenant, document, request, actor);
  }

  /** A version says "reviewed" because its reviewer asked for the review. */
  lemma {:induction false} ReviewerReviewed(run: seq<Action>, x: VersionId) returns (c: nat, reviewer: string)
    requires Possible(EMPTY, run)
    requires var t := After(EMPTY, run).table;
             x in t && t[x].regeneratedFrom.Some? && t[x].status == "reviewed"
    ensures var v := After(EMPTY, run).table[x];
            && v.reviewedBy == Some(reviewer)
            && Begin(c, v.tenant, v.document, Review, reviewer) in run && Insert(c, x) in run
  {
    var request: Request;
    c, request, reviewer := VersionHasItsCall(run, x);
    assert request.Review?;
  }

  /** Whoever reviewed a version did not approve it: from the actions alone, under every interleaving. */
  lemma {:induction false} NobodyApprovesOwnReview(run: seq<Action>, review: nat, approval: nat, p: VersionId,
                                                   x: VersionId, reviewer: string, approver: string,
                                                   tenant: string, document: string)
    requires Possible(EMPTY, run)
    requires Begin(review, tenant, document, Review, reviewer) in run && Insert(review, p) in run
    requires Begin(approval, tenant, document, Approve, approver) in run && Insert(approval, x) in run
    requires x in After(EMPTY, run).table && After(EMPTY, run).table[x].regeneratedFrom == Some(p)
    ensures reviewer != approver
  {
    VersionIsItsCallers(run, review, p, tenant, document, Review, reviewer);
    VersionIsItsCallers(run, approval, x, tenant, document, Approve, approver);
  }

  /** An approved version made from a made version took a review and an approval by two people. */
  lemma {:induction false} ApprovalTakesTwo(run: seq<Action>, x: VersionId, p: VersionId)
      returns (review: nat, reviewer: string, approval: nat, approver: string)
    requires Possible(EMPTY, run)
    requires var t := After(EMPTY, run).table;
             && x in t && t[x].status == "approved" && t[x].regeneratedFrom == Some(p)
             && p in t && t[p].regeneratedFrom.Some?
    ensures var v := After(EMPTY, run).table[x];
            && Begin(review, v.tenant, v.document, Review, reviewer) in run && Insert(review, p) in run
            && Begin(approval, v.tenant, v.document, Approve, approver) in run && Insert(approval, x) in run
            && v.reviewedBy == Some(reviewer) && v.approvedBy == Some(approver) && reviewer != approver
  {
    var request: Request;
    approval, request, approver := VersionHasItsCall(run, x);
    assert request.Approve?;
    review, reviewer := ReviewerReviewed(run, p);
  }
}
