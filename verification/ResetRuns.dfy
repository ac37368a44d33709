/**
  Resets and startup seeds in their sessions: the deletes, the lookups, the author and the seed
  rows commit separately, and any number of them interleave with each other and with every
  operation that creates rows.
 */
module ResetRuns {
  import opened ResetDemo
  import opened Wrappers

  /** How far a call has come. A startup seed begins where a reset stands after its first lookup. */
  datatype Phase =
    | Requested
    | Purged
    | LookedUp(reuse: bool)
    | Located(reuse: bool, found: bool)
    | AuthorReady
    | Finished
    | Failed

  datatype Call = Call(tenant: string, phase: Phase)

  datatype State = State(db: Db, calls: map<nat, Call>)

  datatype Action =
    | Create(op: Op)
    | RequestReset(call: nat, tenant: string)
    | RequestSeed(call: nat, tenant: string)
    | Advance(call: nat)

  const START := State(EMPTY, map[])

  predicate OwnAuthor(db: Db, tenant: string) {
    SEED_AUTHOR in db.customers && db.customers[SEED_AUTHOR].tenant == tenant
  }

  /** The author's session writes: it updates the row it found, or inserts one where none is. */
  predicate WritesAuthor(db: Db, c: Call) {
    c.phase.Located? && if c.phase.found then OwnAuthor(db, c.tenant) else SEED_AUTHOR !in db.customers
  }

  predicate Plants(db: Db, c: Call) {
    c.phase.AuthorReady? && OneMindPerAuthor(Planted(db, c.tenant).minds)
  }

  /** The tables after the next session of a call. */
  function Effect(db: Db, c: Call): Db {
    if c.phase.Requested? then Stage(db, c.tenant, 7)
    else if WritesAuthor(db, c) then Authored(db, c.tenant, c.phase.reuse)
    else if Plants(db, c) then Planted(db, c.tenant)
    else db
  }

  /** Where the call then stands: inserting an author that another call has inserted meanwhile raises. */
  function Onward(db: Db, c: Call): Phase {
    match c.phase
    case Requested => Purged
    case Purged => LookedUp(OwnAuthor(db, c.tenant))
    case LookedUp(reuse) => Located(reuse, OwnAuthor(db, c.tenant))
    case Located(_, found) => if !found && SEED_AUTHOR in db.customers then Failed else AuthorReady
    case AuthorReady => if Plants(db, c) then Finished else Failed
    case _ => c.phase
  }

  function Next(s: State, a: Action): State {
    match a
    case Create(op) => if Accepted(s.db, op) then s.(db := Created(s.db, op)) else s
    case RequestReset(call, tenant) => if call in s.calls then s else s.(calls := s.calls[call := Call(tenant, Requested)])
    case RequestSeed(call, tenant) => if call in s.calls then s else s.(calls := s.calls[call := Call(tenant, LookedUp(false))])
    case Advance(call) =>
      if call !in s.calls then s
      else
        var c := s.calls[call];
        State(Effect(s.db, c), s.calls[call := c.(phase := Onward(s.db, c))])
  }

  function After(s: State, run: seq<Action>): State
    decreases |run|
  {
    if run == [] then s else Next(After(s, run[..|run| - 1]), run[|run| - 1])
  }

  // ---------------------------------------------------------------------------
  // What every interleaving keeps
  // ---------------------------------------------------------------------------

  /** Past the author's session, and once it found the author, a call's tenant owns it. */
  predicate CallAgrees(db: Db, c: Call) {
    c.phase.AuthorReady? || (c.phase.Located? && c.phase.found) ==> OwnAuthor(db, c.tenant)
  }

  ghost predicate RunInv(s: State) {
    ResetDemo.Inv(s.db) && forall c | c in s.calls :: CallAgrees(s.db, s.calls[c])
  }

  /** No session takes the seed author away or gives it to another tenant. */
  predicate AuthorStays(db: Db, after: Db) {
    SEED_AUTHOR in db.customers ==>
      SEED_AUTHOR in after.customers && after.customers[SEED_AUTHOR].tenant == db.customers[SEED_AUTHOR].tenant
  }

  lemma {:induction false} SessionKeepsAuthor(db: Db, c: Call)
    ensures AuthorStays(db, Effect(db, c))
  {
  }

  lemma {:induction false} AuthorSessionKeepsInv(db: Db, c: Call)
    requires ResetDemo.Inv(db) && WritesAuthor(db, c)
    ensures ResetDemo.Inv(Effect(db, c))
  {
    CustomersMayGrow(db, Authored(db, c.tenant, c.phase.reuse).customers);
  }

  lemma {:induction false} SessionKeepsInv(db: Db, c: Call)
    requires ResetDemo.Inv(db) && CallAgrees(db, c)
    ensures ResetDemo.Inv(Effect(db, c))
  {
    if c.phase.Requested? {
      DeletesKeepInv(db, c.tenant);
    } else if WritesAuthor(db, c) {
      AuthorSessionKeepsInv(db, c);
    } else if Plants(db, c) {
      PlantedKeepsInv(db, c.tenant);
    }
  }

  lemma {:induction false} SessionAgrees(db: Db, c: Call)
    requires CallAgrees(db, c)
    ensures CallAgrees(Effect(db, c), c.(phase := Onward(db, c)))
  {
  }

  lemma {:induction false} StepKeepsInv(s: State, a: Action)
    requires RunInv(s)
    ensures RunInv(Next(s, a)) && AuthorStays(s.db, Next(s, a).db)
  {
    var s' := Next(s, a);
    if a.Create? {
      if Accepted(s.db, a.op) { CreatingKeepsInv(s.db, a.op); }
    } else if a.Advance? && a.call in s.calls {
      SessionKeepsInv(s.db, s.calls[a.call]);
      SessionKeepsAuthor(s.db, s.calls[a.call]);
      SessionAgrees(s.db, s.calls[a.call]);
    }
    assert AuthorStays(s.db, s'.db);
    forall c | c in s'.calls ensures CallAgrees(s'.db, s'.calls[c]) {
      if c in s.calls { assert CallAgrees(s.db, s.calls[c]); }
    }
  }

  /** Every interleaving of creations, resets and startup seeds keeps the invariant of the tables. */
  lemma {:induction false} EveryRunKeepsInv(run: seq<Action>)
    ensures RunInv(After(START, run))
    decreases |run|
  {
    if run != [] {
      EveryRunKeepsInv(run[..|run| - 1]);
      StepKeepsInv(After(START, run[..|run| - 1]), run[|run| - 1]);
    }
  }

  lemma {:induction false} PlantKeepsOthers(db: Db, tenant: string)
    ensures OthersKept(db, Planted(db, tenant), tenant)
  {
    PlantedGrows(db, tenant);
    GrownKeepsOthers(db, db, Planted(db, tenant), tenant);
  }

  /** No session loses or changes a row of another tenant. */
  lemma {:induction false} SessionKeepsOthers(db: Db, c: Call)
    requires ResetDemo.Inv(db)
    ensures OthersKept(db, Effect(db, c), c.tenant)
  {
    if c.phase.Requested? {
      StageKeepsOthers(db, c.tenant, 7);
    } else if WritesAuthor(db, c) {
      AuthoredKeepsOthers(db, db, c.tenant, c.phase.reuse);
    } else if Plants(db, c) {
      PlantKeepsOthers(db, c.tenant);
    }
  }

  // ---------------------------------------------------------------------------
  // Who writes over a customer
  // ---------------------------------------------------------------------------

  predicate Requests(a: Action, call: nat) {
    (a.RequestReset? || a.RequestSeed?) && a.call == call
  }

  /** The request that began the call: the first one under its number. */
  function Origin(run: seq<Action>, call: nat): Option<Action>
    decreases |run|
  {
    if run == [] then None
    else if Origin(run[..|run| - 1], call).Some? then Origin(run[..|run| - 1], call)
    else if Requests(run[|run| - 1], call) then Some(run[|run| - 1])
    else None
  }

  predicate Reuses(phase: Phase) {
    match phase
    case Requested => true
    case Purged => true
    case LookedUp(reuse) => reuse
    case Located(reuse, _) => reuse
    case _ => false
  }

  /** Where a call stands agrees with its request, and a startup seed never comes to reuse an author. */
  ghost predicate FromOrigin(s: State, run: seq<Action>, call: nat) {
    && (call in s.calls <==> Origin(run, call).Some?)
    && (call in s.calls ==>
          var a := Origin(run, call).value;
          Requests(a, call) && s.calls[call].tenant == a.tenant && (a.RequestSeed? ==> !Reuses(s.calls[call].phase)))
  }

  lemma {:induction false} CallHasItsOrigin(run: seq<Action>, call: nat)
    ensures FromOrigin(After(START, run), run, call)
    decreases |run|
  {
    if run != [] {
      CallHasItsOrigin(run[..|run| - 1], call);
    }
  }

  /** One session writes the author's row if it has found it and reuses it; nothing else changes a customer. */
  lemma {:induction false} SessionWritesCustomers(db: Db, c: Call, x: Id)
    requires CallAgrees(db, c) && x in db.customers
    ensures x in Effect(db, c).customers
    ensures Effect(db, c).customers[x] ==
              if x == SEED_AUTHOR && c.phase == Located(true, true)
              then Customer(c.tenant, SEED_DATA, db.customers[x].identity) else db.customers[x]
  {
    if c.phase.Requested? {
      assert Stage(db, c.tenant, 7).customers == db.customers;
    } else if WritesAuthor(db, c) {
      assert Effect(db, c).customers == db.customers[SEED_AUTHOR := AuthorRow(db.customers, c.tenant, c.phase.reuse)];
    } else {
      assert Effect(db, c).customers == db.customers;
    }
  }

  lemma {:induction false} CreationKeepsCustomers(db: Db, op: Op, x: Id)
    requires Accepted(db, op) && x in db.customers
    ensures x in Created(db, op).customers && Created(db, op).customers[x] == db.customers[x]
  {
  }

  /**
    Over any run, a customer's row is never lost, and it changes only in the author's session of a reset of its own
    tenant that found the author both times it looked; a startup seed changes no row that is there.
   */
  lemma {:induction false} OnlyResetsOverwrite(run: seq<Action>, a: Action, x: Id)
    requires x in After(START, run).db.customers
    ensures var s, s' := After(START, run), Next(After(START, run), a);
            && x in s'.db.customers
            && (s'.db.customers[x] != s.db.customers[x] ==>
                  && a.Advance? && a.call in s.calls && s.calls[a.call].phase == Located(true, true)
                  && Origin(run, a.call) == Some(RequestReset(a.call, s.db.customers[x].tenant))
                  && x == SEED_AUTHOR)
  {
    var s := After(START, run);
    if a.Advance? && a.call in s.calls {
      EveryRunKeepsInv(run);
      assert CallAgrees(s.db, s.calls[a.call]);
      SessionWritesCustomers(s.db, s.calls[a.call], x);
      CallHasItsOrigin(run, a.call);
    } else if a.Create? && Accepted(s.db, a.op) {
      CreationKeepsCustomers(s.db, a.op, x);
    }
  }

  /** And there it does: such a session leaves the seed's data, under the identity the row had. */
  lemma {:induction false} FoundAuthorIsRewritten(run: seq<Action>, call: nat)
    requires var s := After(START, run);
             call in s.calls && s.calls[call].phase == Located(true, true)
    ensures var s, s' := After(START, run), Next(After(START, run), Advance(call));
            && SEED_AUTHOR in s.db.customers && SEED_AUTHOR in s'.db.customers
            && s'.db.customers[SEED_AUTHOR]
               == Customer(s.calls[call].tenant, SEED_DATA, s.db.customers[SEED_AUTHOR].identity)
            && s'.calls[call].phase == AuthorReady
  {
    EveryRunKeepsInv(run);
    var s := After(START, run);
    assert CallAgrees(s.db, s.calls[call]);
    SessionWritesCustomers(s.db, s.calls[call], SEED_AUTHOR);
  }

  // ---------------------------------------------------------------------------
  // When a call fails
  // ---------------------------------------------------------------------------

  /** The session that plants raises if and only if the author has a mind by then that is not the seed's. */
  lemma {:induction false} PlantFailsExactly(s: State, c: nat)
    requires RunInv(s) && c in s.calls && s.calls[c].phase.AuthorReady?
    ensures var s' := Next(s, Advance(c));
            && (s'.calls[c].phase == Failed <==> StrayMind(s.db))
            && (s'.calls[c].phase == Finished <==> !StrayMind(s.db))
            && (StrayMind(s.db) ==> s'.db == s.db)
  {
    PlantRaisesExactly(s.db, s.calls[c].tenant);
  }

  lemma {:induction false} AfterOneMore(s: State, run: seq<Action>, a: Action)
    ensures After(s, run + [a]) == Next(After(s, run), a)
  {
    assert (run + [a])[..|run|] == run;
  }

  /** Asking for the author's mind before the rows are planted makes the plant fail, and a later startup seed too. */
  lemma {:induction false} MindSlipsIn(s: State, c: nat, id: Id, data: string)
    requires RunInv(s) && c in s.calls && s.calls[c].phase.AuthorReady? && FreshId(id, s.db.minds)
    requires forall x | x in s.db.minds :: s.db.minds[x].author != SEED_AUTHOR
    ensures var bind := Create(BindMind(id, Mind(s.calls[c].tenant, SEED_AUTHOR, data)));
            var s' := Next(Next(s, bind), Advance(c));
            && Accepted(s.db, bind.op) && s'.calls[c].phase == Failed && s'.db.books == s.db.books
            && OwnAuthor(s'.db, s.calls[c].tenant) && !Seeded(s'.db, s.calls[c].tenant, false).1
  {
    assert CallAgrees(s.db, s.calls[c]);
    var t := s.calls[c].tenant;
    var bind := Create(BindMind(id, Mind(t, SEED_AUTHOR, data)));
    StepKeepsInv(s, bind);
    var bound := Next(s, bind);
    assert SEED_MIND !in s.db.minds;
    assert bound.db.minds[id].author == SEED_AUTHOR && StrayMind(bound.db);
    PlantFailsExactly(bound, c);
    SeedRaisesExactly(bound.db, t, false);
  }

  function At(db: Db, phase: Phase): State {
    State(db, map[0 := Call("t", phase)])
  }

  lemma {:induction false} OneSession(db: Db, phase: Phase)
    ensures Next(At(db, phase), Advance(0)) == At(Effect(db, Call("t", phase)), Onward(db, Call("t", phase)))
  {
    assert map[0 := Call("t", phase)][0 := Call("t", Onward(db, Call("t", phase)))]
        == map[0 := Call("t", Onward(db, Call("t", phase)))];
  }

  /** The first reset on empty tables, up to its author's session. */
  lemma {:induction false} FirstReset() returns (run: seq<Action>)
    ensures After(START, run) == At(Authored(EMPTY, "t", false), AuthorReady)
  {
    DeletesFromNothing("t");
    OneSession(EMPTY, Requested);
    OneSession(EMPTY, Purged);
    OneSession(EMPTY, LookedUp(false));
    OneSession(EMPTY, Located(false, false));
    AfterOneMore(START, [], RequestReset(0, "t"));
    run := [] + [RequestReset(0, "t")];
    assert After(START, run) == At(EMPTY, Requested);
    AfterOneMore(START, run, Advance(0)); run := run + [Advance(0)];
    AfterOneMore(START, run, Advance(0)); run := run + [Advance(0)];
    AfterOneMore(START, run, Advance(0)); run := run + [Advance(0)];
    AfterOneMore(START, run, Advance(0)); run := run + [Advance(0)];
  }

  /** From empty tables: the tenant owns the author, nobody else holds a seed id, and its reset fails without a book. */
  lemma {:induction false} ResetFailsForItsOwner() returns (run: seq<Action>)
    ensures var s := After(START, run);
            && 0 in s.calls && s.calls[0] == Call("t", Failed) && OwnAuthor(s.db, "t") && !HeldByOther(s.db, "t")
            && s.db.books == map[] && !Seeded(s.db, "t", false).1
  {
    var first := FirstReset();
    EveryRunKeepsInv(first);
    var s := After(START, first);
    assert "m" !in SEED_IDS;
    MindSlipsIn(s, 0, "m", "");
    var bind := Create(BindMind("m", Mind("t", SEED_AUTHOR, "")));
    run := first + [bind] + [Advance(0)];
    AfterOneMore(START, first, bind);
    AfterOneMore(START, first + [bind], Advance(0));
    EveryRunKeepsInv(run);
    HeldExactlyWithAuthor(After(START, run).db, "t");
  }

  lemma {:induction false} DeletesFromNothing(tenant: string)
    ensures Stage(EMPTY, tenant, 7) == EMPTY
  {
  }

  // ---------------------------------------------------------------------------
  // A reset that nothing interrupts
  // ---------------------------------------------------------------------------

  /** The sessions of one call in a row are the reset as a whole. */
  lemma {:induction false} UninterruptedReset(s: State, c: nat)
    requires c in s.calls && s.calls[c].phase == Requested
    ensures var s5 := Next(Next(Next(Next(Next(s, Advance(c)), Advance(c)), Advance(c)), Advance(c)), Advance(c));
            && (s5.db, s5.calls[c].phase == Finished) == Reset(s.db, s.calls[c].tenant)
  {
    var t := s.calls[c].tenant;
    var purged := Stage(s.db, t, 7);
    var s3 := Next(Next(Next(s, Advance(c)), Advance(c)), Advance(c));
    assert s3.db == purged && s3.calls[c] == Call(t, Located(OwnAuthor(purged, t), OwnAuthor(purged, t)));
    assert !AuthorTaken(purged, t) ==> Authored(purged, t, OwnAuthor(purged, t)) == Authored(purged, t, true);
  }

  /**
    In any reachable state, whatever is in flight, a reset that nothing interrupts succeeds and leaves exactly the
    seed rows if and only if no other tenant owns the seed author; either way other tenants' rows are as before.
   */
  lemma {:induction false} UninterruptedAfterAnyRun(run: seq<Action>, tenant: string)
    ensures var db := After(START, run).db;
            && (Reset(db, tenant).1 <==> !AuthorTaken(db, tenant))
            && (Reset(db, tenant).1 <==> ExactlySeeded(Reset(db, tenant).0, tenant))
            && OthersKept(db, Reset(db, tenant).0, tenant)
  {
    EveryRunKeepsInv(run);
    ResetSeedsExactly(After(START, run).db, tenant);
    ResetLeavesOthersAlone(After(START, run).db, tenant);
  }

  // ---------------------------------------------------------------------------
  // A reset that others interrupt
  // ---------------------------------------------------------------------------

  /** The creation adds something the seed does not have: to the tenant's books, or a mind for the seed author. */
  predicate Concerns(op: Op, tenant: string) {
    match op
    case CreateAuthor(_, _) => false
    case BindMind(_, mind) => mind.author == SEED_AUTHOR
    case CreateBook(_, book) => book.tenant == tenant
    case CreateEdition(_, edition) => edition.tenant == tenant
    case SaveDocument(_, document) => document.tenant == tenant
    case PersistAsset(_, asset) => asset.tenant == tenant
    case CreateCampaign(_, campaign, _) => campaign.tenant == tenant
  }

  predicate Disturbs(s: State, a: Action, tenant: string) {
    a.Create? && Accepted(s.db, a.op) && Concerns(a.op, tenant)
  }

  predicate Undisturbed(s: State, run: seq<Action>, tenant: string)
    decreases |run|
  {
    run == [] ||
    (Undisturbed(s, run[..|run| - 1], tenant) && !Disturbs(After(s, run[..|run| - 1]), run[|run| - 1], tenant))
  }

  /** The step is no session of another call of the tenant's, and not the one in which this call plants. */
  predicate LetsBe(s: State, a: Action, call: nat) {
    a.Advance? && a.call in s.calls && call in s.calls ==>
      if a.call == call then s.calls[call].phase != AuthorReady else s.calls[a.call].tenant != s.calls[call].tenant
  }

  predicate LeftAlone(s: State, run: seq<Action>, call: nat)
    decreases |run|
  {
    run == [] ||
    (LeftAlone(s, run[..|run| - 1], call) && LetsBe(After(s, run[..|run| - 1]), run[|run| - 1], call))
  }

  /** Where a call stands between its deletes and its plant, and what it has seen of the author. */
  predicate Underway(db: Db, c: Call) {
    match c.phase
    case Purged => true
    case LookedUp(reuse) => reuse == OwnAuthor(db, c.tenant)
    case Located(reuse, found) => reuse == found && found == OwnAuthor(db, c.tenant)
    case AuthorReady => OwnAuthor(db, c.tenant) && db.customers[SEED_AUTHOR].data == SEED_DATA
    case Failed => true
    case _ => false
  }

  /** The tenant has a row among its books, or the author a mind, that is none of the seed's. */
  predicate Extra(db: Db, tenant: string) {
    || (exists x | x in db.minds :: x != SEED_MIND && db.minds[x].author == SEED_AUTHOR)
    || (exists x | x in db.books :: x != SEED_BOOK && db.books[x].tenant == tenant)
    || (exists x | x in db.editions :: x !in {SEED_PAPERBACK, SEED_EBOOK} && db.editions[x].tenant == tenant)
    || (exists x | x in db.documents :: x != SEED_DOCUMENT && db.documents[x].tenant == tenant)
    || (exists x | x in db.assets :: db.assets[x].tenant == tenant)
    || (exists x | x in db.campaigns :: db.campaigns[x].tenant == tenant)
  }

  lemma {:induction false} ExtraIsNotExact(db: Db, tenant: string)
    requires Extra(db, tenant)
    ensures !ExactlySeeded(db, tenant) && !Cleared(db, tenant)
  {
  }

  lemma {:induction false} CreationDisturbs(db: Db, op: Op, tenant: string)
    requires Accepted(db, op)
    ensures Concerns(op, tenant) ==> Extra(Created(db, op), tenant)
    ensures Extra(db, tenant) ==> Extra(Created(db, op), tenant)
  {
    var db' := Created(db, op);
    if Concerns(op, tenant) {
      assert match op
             case BindMind(id, _) => id in db'.minds && id != SEED_MIND
             case CreateBook(id, _) => id in db'.books && id != SEED_BOOK
             case CreateEdition(id, _) => id in db'.editions && id !in {SEED_PAPERBACK, SEED_EBOOK}
             case SaveDocument(id, _) => id in db'.documents && id != SEED_DOCUMENT
             case PersistAsset(id, _) => id in db'.assets
             case CreateCampaign(id, _, _) => id in db'.campaigns
             case CreateAuthor(_, _) => true;
    }
    CreatedGrows(db, op);
    GrowthKeepsExtra(db, db', tenant);
  }

  predicate RowsStay(db: Db, after: Db, tenant: string) {
    && (forall x | x in db.minds && db.minds[x].author == SEED_AUTHOR :: x in after.minds && after.minds[x] == db.minds[x])
    && (forall x | x in db.books && db.books[x].tenant == tenant :: x in after.books && after.books[x] == db.books[x])
    && (forall x | x in db.editions && db.editions[x].tenant == tenant ::
          x in after.editions && after.editions[x] == db.editions[x])
    && (forall x | x in db.documents && db.documents[x].tenant == tenant ::
          x in after.documents && after.documents[x] == db.documents[x])
    && (forall x | x in db.assets && db.assets[x].tenant == tenant :: x in after.assets && after.assets[x] == db.assets[x])
    && (forall x | x in db.campaigns && db.campaigns[x].tenant == tenant ::
          x in after.campaigns && after.campaigns[x] == db.campaigns[x])
  }

  lemma {:induction false} CreatedGrows(db: Db, op: Op)
    requires Accepted(db, op)
    ensures forall tenant :: RowsStay(db, Created(db, op), tenant)
  {
  }

  lemma {:induction false} GrowthKeepsExtra(db: Db, after: Db, tenant: string)
    requires RowsStay(db, after, tenant)
    ensures Extra(db, tenant) ==> Extra(after, tenant)
  {
  }

  /** A session of another tenant's call keeps the tenant's rows and its author's minds. */
  lemma {:induction false} OtherSessionKeepsRows(db: Db, c: Call, tenant: string)
    requires ResetDemo.Inv(db) && !AuthorTaken(db, tenant) && c.tenant != tenant
    ensures RowsStay(db, Effect(db, c), tenant)
  {
    SessionKeepsOthers(db, c);
    AuthorMindsAreOwn(db, tenant);
  }

  lemma {:induction false} AuthorMindsAreOwn(db: Db, tenant: string)
    requires ResetDemo.Inv(db) && !AuthorTaken(db, tenant)
    ensures forall x | x in db.minds && db.minds[x].author == SEED_AUTHOR :: db.minds[x].tenant == tenant
  {
    forall x | x in db.minds && db.minds[x].author == SEED_AUTHOR ensures db.minds[x].tenant == tenant {
      assert db.customers[db.minds[x].author].tenant == db.minds[x].tenant;
    }
  }

  /** What a reset has seen, and the rows its deletes cleared, while it is left alone. */
  ghost predicate Waiting(s: State, call: nat, tenant: string, disturbed: bool) {
    && RunInv(s) && call in s.calls && s.calls[call].tenant == tenant && Underway(s.db, s.calls[call])
    && if disturbed then Extra(s.db, tenant) else Cleared(s.db, tenant)
  }

  lemma {:induction false} TakenStays(s: State, run: seq<Action>, tenant: string)
    requires RunInv(s) && AuthorTaken(s.db, tenant)
    ensures RunInv(After(s, run)) && AuthorTaken(After(s, run).db, tenant)
    decreases |run|
  {
    if run != [] {
      TakenStays(s, run[..|run| - 1], tenant);
      StepKeepsInv(After(s, run[..|run| - 1]), run[|run| - 1]);
    }
  }

  lemma {:induction false} OwnSessionWaits(db: Db, c: Call)
    requires CallAgrees(db, c) && Underway(db, c) && !c.phase.AuthorReady? && !AuthorTaken(db, c.tenant)
    ensures Underway(Effect(db, c), c.(phase := Onward(db, c)))
    ensures Effect(db, c).(customers := db.customers) == db
  {
  }

  lemma {:induction false} FewerRowsStayCleared(db: Db, after: Db, tenant: string)
    requires Grows(after.minds, db.minds) && Grows(after.books, db.books) && Grows(after.editions, db.editions)
    requires Grows(after.documents, db.documents) && Grows(after.assets, db.assets)
    requires Grows(after.campaigns, db.campaigns) && Grows(after.tasks, db.tasks) && Cleared(db, tenant)
    ensures Cleared(after, tenant)
  {
  }

  lemma {:induction false} DeletesOnlyShrink(db: Db, tenant: string)
    ensures var s := Stage(db, tenant, 7);
            && Grows(s.minds, db.minds) && Grows(s.books, db.books) && Grows(s.editions, db.editions)
            && Grows(s.documents, db.documents) && Grows(s.assets, db.assets) && Grows(s.campaigns, db.campaigns)
            && Grows(s.tasks, db.tasks)
  {
  }

  /** What another tenant's call leaves, in the tables a seed looks at: fewer rows, or its author. */
  lemma {:induction false} OtherSessionKeepsCleared(db: Db, c: Call, tenant: string)
    requires CallAgrees(db, c) && !AuthorTaken(db, tenant) && c.tenant != tenant && Cleared(db, tenant)
    ensures Cleared(Effect(db, c), tenant)
  {
    assert !Plants(db, c);
    if c.phase.Requested? {
      DeletesOnlyShrink(db, c.tenant);
      FewerRowsStayCleared(db, Stage(db, c.tenant, 7), tenant);
    } else {
      assert Effect(db, c).(customers := db.customers) == db;
      CustomersDoNotClear(db, Effect(db, c), tenant);
    }
  }

  lemma {:induction false} CreationKeepsCleared(db: Db, op: Op, tenant: string)
    requires Accepted(db, op) && !Concerns(op, tenant) && Cleared(db, tenant)
    ensures Cleared(Created(db, op), tenant)
  {
  }

  lemma {:induction false} CustomersDoNotClear(db: Db, after: Db, tenant: string)
    requires after.(customers := db.customers) == db
    ensures (Cleared(db, tenant) ==> Cleared(after, tenant)) && (Extra(db, tenant) ==> Extra(after, tenant))
  {
  }

  /** One step while the reset waits. */
  lemma {:induction false} StepWaits(s: State, a: Action, call: nat, tenant: string, disturbed: bool)
    requires Waiting(s, call, tenant, disturbed) && LetsBe(s, a, call)
    requires !AuthorTaken(s.db, tenant) && !AuthorTaken(Next(s, a).db, tenant)
    ensures Waiting(Next(s, a), call, tenant, disturbed || Disturbs(s, a, tenant))
  {
    StepKeepsInv(s, a);
    if a.Create? {
      if Accepted(s.db, a.op) {
        CreationDisturbs(s.db, a.op, tenant);
        if !disturbed && !Concerns(a.op, tenant) { CreationKeepsCleared(s.db, a.op, tenant); }
      }
    } else if a.Advance? && a.call in s.calls {
      var c := s.calls[a.call];
      assert CallAgrees(s.db, c);
      if a.call == call {
        OwnSessionWaits(s.db, c);
        CustomersDoNotClear(s.db, Effect(s.db, c), tenant);
      } else {
        OtherStepWaits(s.db, c, s.calls[call], disturbed);
      }
    }
  }

  lemma {:induction false} OtherStepWaits(db: Db, c: Call, mine: Call, disturbed: bool)
    requires ResetDemo.Inv(db) && CallAgrees(db, c) && c.tenant != mine.tenant && !AuthorTaken(db, mine.tenant)
    requires !AuthorTaken(Effect(db, c), mine.tenant) && Underway(db, mine)
    requires if disturbed then Extra(db, mine.tenant) else Cleared(db, mine.tenant)
    ensures Underway(Effect(db, c), mine)
    ensures if disturbed then Extra(Effect(db, c), mine.tenant) else Cleared(Effect(db, c), mine.tenant)
  {
    if disturbed {
      OtherSessionKeepsRows(db, c, mine.tenant);
      GrowthKeepsExtra(db, Effect(db, c), mine.tenant);
    } else {
      OtherSessionKeepsCleared(db, c, mine.tenant);
    }
    SessionKeepsAuthor(db, c);
    assert !WritesAuthor(db, c);
    assert Effect(db, c).customers == db.customers;
  }

  lemma {:induction false} RunWaits(s: State, since: seq<Action>, call: nat, tenant: string)
    requires Waiting(s, call, tenant, false) && LeftAlone(s, since, call) && !AuthorTaken(After(s, since).db, tenant)
    ensures Waiting(After(s, since), call, tenant, !Undisturbed(s, since, tenant))
    decreases |since|
  {
    if since != [] {
      var before, a := since[..|since| - 1], since[|since| - 1];
      RunKeepsInv(s, before);
      if AuthorTaken(After(s, before).db, tenant) { StepKeepsInv(After(s, before), a); }
      RunWaits(s, before, call, tenant);
      StepWaits(After(s, before), a, call, tenant, !Undisturbed(s, before, tenant));
    }
  }

  lemma {:induction false} RunKeepsInv(s: State, run: seq<Action>)
    requires RunInv(s)
    ensures RunInv(After(s, run))
    decreases |run|
  {
    if run != [] {
      RunKeepsInv(s, run[..|run| - 1]);
      StepKeepsInv(After(s, run[..|run| - 1]), run[|run| - 1]);
    }
  }

  /**
    A reset that got as far as planting, while no other call of its tenant took a step: it succeeds and leaves
    exactly the seed rows if and only if nothing was created since its deletes for the tenant's books, and no mind
    for the seed author.
   */
  lemma {:induction false} InterruptedResetExactly(before: State, call: nat, since: seq<Action>)
    requires RunInv(before) && call in before.calls && before.calls[call].phase == Requested
    requires var s := Next(before, Advance(call));
             LeftAlone(s, since, call) && call in After(s, since).calls && After(s, since).calls[call].phase == AuthorReady
    ensures var s, t := Next(before, Advance(call)), before.calls[call].tenant;
            var end := Next(After(s, since), Advance(call));
            (end.calls[call].phase == Finished && ExactlySeeded(end.db, t)) <==> Undisturbed(s, since, t)
  {
    var s, t := Next(before, Advance(call)), before.calls[call].tenant;
    StepKeepsInv(before, Advance(call));
    RunKeepsInv(s, since);
    var ready := After(s, since);
    TenantStays(s, since, call);
    assert CallAgrees(ready.db, ready.calls[call]);
    if AuthorTaken(before.db, t) { TakenStays(s, since, t); }
    DeletesClear(before.db, t);
    RunWaits(s, since, call, t);
    PlantOutcome(ready.db, t, !Undisturbed(s, since, t));
  }

  lemma {:induction false} TenantStays(s: State, run: seq<Action>, call: nat)
    requires call in s.calls
    ensures call in After(s, run).calls && After(s, run).calls[call].tenant == s.calls[call].tenant
    decreases |run|
  {
    if run != [] {
      TenantStays(s, run[..|run| - 1], call);
    }
  }

  lemma {:induction false} PlantOutcome(db: Db, tenant: string, disturbed: bool)
    requires ResetDemo.Inv(db) && OwnAuthor(db, tenant) && db.customers[SEED_AUTHOR].data == SEED_DATA
    requires if disturbed then Extra(db, tenant) else Cleared(db, tenant)
    ensures var c := Call(tenant, AuthorReady);
            (Onward(db, c) == Finished && ExactlySeeded(Effect(db, c), tenant)) <==> !disturbed
  {
    if disturbed {
      PlantedStays(db, tenant);
      GrowthKeepsExtra(db, Planted(db, tenant), tenant);
      ExtraIsNotExact(Planted(db, tenant), tenant);
    } else {
      OnlyMindFits(db.minds, tenant);
      ClearedIsSeededExactly(db, tenant);
    }
  }

  lemma {:induction false} PlantedStays(db: Db, tenant: string)
    ensures RowsStay(db, Planted(db, tenant), tenant)
  {
    PlantedGrows(db, tenant);
  }
}
