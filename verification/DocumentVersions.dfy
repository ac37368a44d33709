/**
  The document version protocol of the audit service. Each of review, approve and
  regenerate reads the current version, inserts a successor and marks the old version
  superseded, in three separately committed sessions. The table is one map; a call in
  flight is a record of what it has read, so any interleaving of any number of calls is
  a run of `Next`.
 */
module DocumentVersions {
  import opened Wrappers

  type VersionId = nat

  datatype Version = Version(
    tenant: string,
    document: string,
    number: int,
    status: string,
    content: string,
    createdBy: Option<string>,
    reviewedBy: Option<string>,
    approvedBy: Option<string>,
    regeneratedFrom: Option<VersionId>,
    supersededBy: Option<VersionId>)

  type Table = map<VersionId, Version>

  datatype Request = Review | Approve | Regenerate(content: Option<string>)

  /** How far a call has come: nothing read yet, holding a snapshot, or successor inserted. */
  datatype Call =
    | Started(tenant: string, document: string, request: Request, actor: string)
    | Holding(heldRequest: Request, heldActor: string, currentId: VersionId, current: Version)
    | Inserted(oldId: VersionId, newId: VersionId)
    | Finished

  datatype State = State(table: Table, calls: map<nat, Call>)

  datatype Action =
    | CreateRoot(id: VersionId, row: Version)
    | Begin(call: nat, tenant: string, document: string, request: Request, actor: string)
    | ReadCurrent(call: nat, id: VersionId)
    | ReadNothing(call: nat)
    | Insert(call: nat, newId: VersionId)
    | MarkSuperseded(call: nat)

  // ---------------------------------------------------------------------------
  // The three sessions
  // ---------------------------------------------------------------------------

  predicate Of(v: Version, tenant: string, document: string) {
    v.tenant == tenant && v.document == document
  }

  predicate SameDocument(v: Version, w: Version) {
    Of(v, w.tenant, w.document)
  }

  predicate Live(t: Table, tenant: string, document: string, id: VersionId) {
    id in t && Of(t[id], tenant, document) && t[id].supersededBy.None?
  }

  /** The row the query may return: unsuperseded, and of the highest number among those. */
  ghost predicate IsCurrent(t: Table, tenant: string, document: string, id: VersionId) {
    && Live(t, tenant, document, id)
    && forall x | Live(t, tenant, document, x) :: t[x].number <= t[id].number
  }

  /** The ValueError an approval raises on this snapshot, if any. */
  function Refusal(request: Request, actor: string, current: Version): Option<string> {
    if !request.Approve? then None
    else if current.status != "reviewed" then Some("Document must be reviewed before approval")
    else if current.reviewedBy == None || current.reviewedBy == Some("") || current.reviewedBy == Some(actor)
    then Some("Approver cannot be the same as reviewer")
    else None
  }

  function Successor(request: Request, actor: string, currentId: VersionId, current: Version): Version {
    var base := Version(current.tenant, current.document, current.number + 1, "generated", current.content,
                        Some(actor), None, None, Some(currentId), None);
    match request
    case Review => base.(status := "reviewed", reviewedBy := Some(actor))
    case Approve => base.(status := "approved", reviewedBy := current.reviewedBy, approvedBy := Some(actor))
    case Regenerate(content) => if content.Some? then base.(content := content.value) else base
  }

  /** No name, an empty one, or the actor's own. */
  predicate NotByAnother(name: Option<string>, actor: string) {
    name.None? || name.value == "" || name.value == actor
  }

  /** What a version owes to the request it was made for, to the actor who asked, and to its parent. */
  ghost predicate MadeBy(row: Version, parent: Version, request: Request, actor: string) {
    && SameDocument(row, parent) && row.number == parent.number + 1
    && row.createdBy == Some(actor)
    && match request
       case Review =>
         row.status == "reviewed" && row.reviewedBy == Some(actor) && row.approvedBy.None?
         && row.content == parent.content
       case Approve =>
         && row.status == "approved" && row.approvedBy == Some(actor) && row.reviewedBy == parent.reviewedBy
         && row.content == parent.content && parent.status == "reviewed"
         && !NotByAnother(parent.reviewedBy, actor)
       case Regenerate(content) =>
         && row.status == "generated" && row.reviewedBy.None? && row.approvedBy.None?
         && (content.Some? ==> row.content == content.value)
         && (content.None? ==> row.content == parent.content)
  }

  function Marked(t: Table, oldId: VersionId, newId: VersionId): Table
    requires oldId in t
  {
    t[oldId := t[oldId].(supersededBy := Some(newId))]
  }

  // ---------------------------------------------------------------------------
  // Interleaved runs
  // ---------------------------------------------------------------------------

  ghost predicate Enabled(s: State, a: Action) {
    match a
    case CreateRoot(id, row) =>
      && id !in s.table && row.regeneratedFrom.None? && row.supersededBy.None?
      && forall x | x in s.table :: !SameDocument(s.table[x], row)
    case Begin(c, _, _, _, _) => c !in s.calls
    case ReadCurrent(c, id) =>
      c in s.calls && s.calls[c].Started? && IsCurrent(s.table, s.calls[c].tenant, s.calls[c].document, id)
    case ReadNothing(c) =>
      && c in s.calls && s.calls[c].Started?
      && forall x :: !Live(s.table, s.calls[c].tenant, s.calls[c].document, x)
    case Insert(c, newId) => c in s.calls && s.calls[c].Holding? && newId !in s.table
    case MarkSuperseded(c) => c in s.calls && s.calls[c].Inserted? && s.calls[c].oldId in s.table
  }

  ghost function Next(s: State, a: Action): State
    requires Enabled(s, a)
  {
    match a
    case CreateRoot(id, row) => s.(table := s.table[id := row])
    case Begin(c, tenant, document, request, actor) =>
      s.(calls := s.calls[c := Started(tenant, document, request, actor)])
    case ReadCurrent(c, id) =>
      var call := s.calls[c];
      var read := if Refusal(call.request, call.actor, s.table[id]).Some? then Finished
                  else Holding(call.request, call.actor, id, s.table[id]);
      s.(calls := s.calls[c := read])
    case ReadNothing(c) => s.(calls := s.calls[c := Finished])
    case Insert(c, newId) =>
      var call := s.calls[c];
      var row := Successor(call.heldRequest, call.heldActor, call.currentId, call.current);
      State(s.table[newId := row], s.calls[c := Inserted(call.currentId, newId)])
    case MarkSuperseded(c) =>
      State(Marked(s.table, s.calls[c].oldId, s.calls[c].newId), s.calls[c := Finished])
  }

  ghost predicate Possible(s: State, run: seq<Action>)
    decreases |run|
  {
    run == [] || (Enabled(s, run[0]) && Possible(Next(s, run[0]), run[1..]))
  }

  ghost function After(s: State, run: seq<Action>): State
    requires Possible(s, run)
    decreases |run|
  {
    if run == [] then s else After(Next(s, run[0]), run[1..])
  }

  const EMPTY := State(map[], map[])

  // ---------------------------------------------------------------------------
  // What every interleaving keeps
  // ---------------------------------------------------------------------------

  /** A version made from another one: that one exists, in the same document, numbered one less. */
  ghost predicate ParentsLinked(t: Table) {
    forall x | x in t && t[x].regeneratedFrom.Some? ::
      var p := t[x].regeneratedFrom.value;
      p in t && SameDocument(t[p], t[x]) && t[x].number == t[p].number + 1
  }

  /** superseded_by points to a version that was made from this one. */
  ghost predicate SupersededByChild(t: Table) {
    forall x | x in t && t[x].supersededBy.Some? ::
      var y := t[x].supersededBy.value;
      y in t && t[y].regeneratedFrom == Some(x)
  }

  /** An approved successor comes from a reviewed version of the same text by someone else. */
  ghost predicate FourEyes(t: Table) {
    forall x | x in t && t[x].status == "approved" && t[x].regeneratedFrom.Some? ::
      var p := t[x].regeneratedFrom.value;
      && p in t && t[p].status == "reviewed" && t[p].content == t[x].content
      && t[p].reviewedBy.Some? && t[p].reviewedBy.value != ""
      && t[x].reviewedBy == t[p].reviewedBy
      && t[x].approvedBy.Some? && t[x].approvedBy != t[p].reviewedBy
  }

  ghost predicate OneRoot(t: Table) {
    forall x, y | x in t && y in t && SameDocument(t[x], t[y])
                  && t[x].regeneratedFrom.None? && t[y].regeneratedFrom.None? :: x == y
  }

  ghost predicate Sound(t: Table) {
    ParentsLinked(t) && SupersededByChild(t) && FourEyes(t) && OneRoot(t)
  }

  /** What a call in flight still knows to be true of the table. */
  ghost predicate CallAgrees(t: Table, call: Call) {
    match call
    case Started(_, _, _, _) => true
    case Holding(request, actor, id, current) =>
      && id in t && t[id].(supersededBy := None) == current.(supersededBy := None)
      && Refusal(request, actor, current).None?
    case Inserted(oldId, newId) => oldId in t && newId in t && t[newId].regeneratedFrom == Some(oldId)
    case Finished => true
  }

  /** A version with a successor is superseded, unless the call that made the successor has yet to mark it. */
  ghost predicate MarksComing(s: State) {
    forall y | y in s.table && s.table[y].regeneratedFrom.Some? ::
      var x := s.table[y].regeneratedFrom.value;
      || (x in s.table && s.table[x].supersededBy.Some?)
      || exists c :: c in s.calls && s.calls[c] == Inserted(x, y)
  }

  ghost predicate Inv(s: State) {
    && Sound(s.table)
    && (forall c | c in s.calls :: CallAgrees(s.table, s.calls[c]))
    && MarksComing(s)
  }

  lemma {:induction false} InsertKeepsSound(t: Table, request: Request, actor: string, id: VersionId,
                                            current: Version, newId: VersionId)
    requires Sound(t) && newId !in t && CallAgrees(t, Holding(request, actor, id, current))
    ensures Sound(t[newId := Successor(request, actor, id, current)])
  {
    var row := Successor(request, actor, id, current);
    var t' := t[newId := row];
    assert forall x | x in t :: t'[x] == t[x];
    assert FourEyes(t');
    assert OneRoot(t');
  }

  lemma {:induction false} MarkKeepsSound(t: Table, oldId: VersionId, newId: VersionId)
    requires Sound(t) && CallAgrees(t, Inserted(oldId, newId))
    ensures Sound(Marked(t, oldId, newId))
  {
    MarkKeepsParents(t, oldId, newId);
    MarkKeepsFourEyes(t, oldId, newId);
  }

  lemma {:induction false} MarkKeepsParents(t: Table, oldId: VersionId, newId: VersionId)
    requires oldId in t && ParentsLinked(t)
    ensures ParentsLinked(Marked(t, oldId, newId))
  {
  }

  lemma {:induction false} MarkKeepsFourEyes(t: Table, oldId: VersionId, newId: VersionId)
    requires oldId in t && FourEyes(t)
    ensures FourEyes(Marked(t, oldId, newId))
  {
  }

  lemma {:induction false} RootKeepsInv(s: State, id: VersionId, row: Version)
    requires Inv(s) && Enabled(s, CreateRoot(id, row))
    ensures Inv(Next(s, CreateRoot(id, row)))
  {
    var t, t' := s.table, s.table[id := row];
    assert forall x | x in t :: t'[x] == t[x];
    assert ParentsLinked(t') && SupersededByChild(t') && FourEyes(t') && OneRoot(t');
    forall c | c in s.calls ensures CallAgrees(t', s.calls[c]) {
      assert CallAgrees(t, s.calls[c]);
    }
    assert MarksComing(State(t', s.calls));
  }

  /** The calls other than the acting one keep agreeing with the table. */
  lemma {:induction false} OthersAgree(s: State, a: Action, c: nat)
    requires Inv(s) && Enabled(s, a) && !a.CreateRoot? && c in s.calls && c != a.call
    ensures c in Next(s, a).calls && Next(s, a).calls[c] == s.calls[c]
    ensures CallAgrees(Next(s, a).table, s.calls[c])
  {
    assert CallAgrees(s.table, s.calls[c]);
  }

  lemma {:induction false} StepKeepsInv(s: State, a: Action)
    requires Inv(s) && Enabled(s, a)
    ensures Inv(Next(s, a))
  {
    if a.CreateRoot? {
      RootKeepsInv(s, a.id, a.row);
    } else {
      var s' := Next(s, a);
      KeepMarks(s, a);
      StepKeepsSound(s, a);
      forall c | c in s'.calls ensures CallAgrees(s'.table, s'.calls[c]) {
        if c != a.call { OthersAgree(s, a, c); }
      }
    }
  }

  lemma {:induction false} StepKeepsSound(s: State, a: Action)
    requires Inv(s) && Enabled(s, a) && !a.CreateRoot?
    ensures Sound(Next(s, a).table)
    ensures CallAgrees(Next(s, a).table, Next(s, a).calls[a.call])
  {
    match a
    case Begin(_, _, _, _, _) =>
    case ReadCurrent(_, _) =>
    case ReadNothing(_) =>
    case Insert(c, newId) =>
      var call := s.calls[c];
      assert CallAgrees(s.table, call);
      InsertKeepsSound(s.table, call.heldRequest, call.heldActor, call.currentId, call.current, newId);
    case MarkSuperseded(c) =>
      assert CallAgrees(s.table, s.calls[c]);
      MarkKeepsSound(s.table, s.calls[c].oldId, s.calls[c].newId);
  }

  /** The one obligation that spans the call table: who still owes a mark. */
  lemma {:induction false} KeepMarks(s: State, a: Action)
    requires Inv(s) && Enabled(s, a) && !a.CreateRoot?
    ensures MarksComing(Next(s, a))
  {
    var s' := Next(s, a);
    forall y | y in s'.table && s'.table[y].regeneratedFrom.Some?
      ensures var x := s'.table[y].regeneratedFrom.value;
              || (x in s'.table && s'.table[x].supersededBy.Some?)
              || exists c :: c in s'.calls && s'.calls[c] == Inserted(x, y)
    {
      var x := s'.table[y].regeneratedFrom.value;
      if y in s.table {
        assert s.table[y].regeneratedFrom == Some(x);
        if !(x in s.table && s.table[x].supersededBy.Some?) {
          var c :| c in s.calls && s.calls[c] == Inserted(x, y);
          if !(a.MarkSuperseded? && a.call == c) {
            assert c in s'.calls && s'.calls[c] == Inserted(x, y);
          }
        }
      } else {
        assert s'.calls[a.call] == Inserted(x, y);
      }
    }
  }

  /** Every interleaving of any number of calls keeps the invariant. */
  lemma {:induction false} RunKeepsInv(s: State, run: seq<Action>)
    requires Inv(s) && Possible(s, run)
    ensures Inv(After(s, run))
    decreases |run|
  {
    if run != [] {
      StepKeepsInv(s, run[0]);
      RunKeepsInv(Next(s, run[0]), run[1..]);
    }
  }

  /** Safety over whole runs, from the empty table. */
  lemma {:induction false} EveryRunIsSound(run: seq<Action>)
    requires Possible(EMPTY, run)
    ensures Inv(After(EMPTY, run))
  {
    RunKeepsInv(EMPTY, run);
  }

  // ---------------------------------------------------------------------------
  // Forest shape and the current version
  // ---------------------------------------------------------------------------

  lemma {:induction false} HighestNumber(t: Table, ids: set<VersionId>) returns (top: VersionId)
    requires ids != {} && ids <= t.Keys
    ensures top in ids && forall x | x in ids :: t[x].number <= t[top].number
  {
    var first :| first in ids;
    var rest := ids - {first};
    top := first;
    if rest != {} {
      var other := HighestNumber(t, rest);
      top := if t[other].number > t[first].number then other else first;
    }
    assert forall x | x in ids :: x == first || x in rest;
  }

  /** A document that has a version has a current one, and the current one has the highest number of all. */
  lemma {:induction false} CurrentIsHighest(t: Table, v: VersionId)
    requires ParentsLinked(t) && SupersededByChild(t) && v in t
    ensures exists id :: IsCurrent(t, t[v].tenant, t[v].document, id)
    ensures forall id, x | IsCurrent(t, t[v].tenant, t[v].document, id) && x in t && SameDocument(t[x], t[v]) ::
              t[x].number <= t[id].number
  {
    var ids := set x | x in t && SameDocument(t[x], t[v]);
    assert v in ids;
    var top := HighestNumber(t, ids);
    assert forall y | y in t && t[y].regeneratedFrom == Some(top) :: y in ids;
    assert t[top].supersededBy.None?;
    assert IsCurrent(t, t[v].tenant, t[v].document, top);
  }

  /** The version k regenerations before this one. */
  ghost function Ancestor(t: Table, id: VersionId, k: nat): Option<VersionId>
    decreases k
  {
    if id !in t then None
    else if k == 0 then Some(id)
    else if t[id].regeneratedFrom.None? then None
    else Ancestor(t, t[id].regeneratedFrom.value, k - 1)
  }

  /** Going back never returns to the same version: the links have no cycle. */
  lemma {:induction false} AncestorNumber(t: Table, id: VersionId, k: nat)
    requires ParentsLinked(t) && id in t && Ancestor(t, id, k).Some?
    ensures var a := Ancestor(t, id, k).value;
            a in t && SameDocument(t[a], t[id]) && t[a].number == t[id].number - k && (k > 0 ==> a != id)
    decreases k
  {
    if k > 0 {
      AncestorNumber(t, t[id].regeneratedFrom.value, k - 1);
    }
  }

  ghost function Below(t: Table, n: int): set<VersionId> {
    set x | x in t && t[x].number < n
  }

  ghost predicate RootOf(t: Table, root: VersionId, id: VersionId) {
    && root in t && id in t && t[root].regeneratedFrom.None? && SameDocument(t[root], t[id])
    && t[root].number <= t[id].number && Ancestor(t, id, t[id].number - t[root].number) == Some(root)
  }

  /** Every version descends from a root, in exactly as many steps as their numbers differ. */
  lemma {:induction false} DescendsFromRoot(t: Table, id: VersionId) returns (root: VersionId)
    requires ParentsLinked(t) && id in t
    ensures RootOf(t, root, id)
    decreases Below(t, t[id].number)
  {
    if t[id].regeneratedFrom.None? {
      root := id;
    } else {
      var p := t[id].regeneratedFrom.value;
      assert p in Below(t, t[id].number) && p !in Below(t, t[p].number);
      assert Below(t, t[p].number) < Below(t, t[id].number);
      root := DescendsFromRoot(t, p);
    }
  }

  /** With one root a document is one tree: any two versions descend from it. */
  lemma {:induction false} OneTree(t: Table, x: VersionId, y: VersionId) returns (root: VersionId)
    requires ParentsLinked(t) && OneRoot(t) && x in t && y in t && SameDocument(t[x], t[y])
    ensures RootOf(t, root, x) && RootOf(t, root, y)
  {
    root := DescendsFromRoot(t, x);
    var other := DescendsFromRoot(t, y);
    RootsAgree(t, root, other);
  }

  lemma {:induction false} RootsAgree(t: Table, r: VersionId, q: VersionId)
    requires OneRoot(t) && r in t && q in t && SameDocument(t[r], t[q])
    requires t[r].regeneratedFrom.None? && t[q].regeneratedFrom.None?
    ensures r == q
  {
  }

  // ---------------------------------------------------------------------------
  // A single chain: what atomic calls add
  // ---------------------------------------------------------------------------

  /** No two versions of a document share a number. */
  ghost predicate Linear(t: Table) {
    forall x, y | x in t && y in t && SameDocument(t[x], t[y]) && t[x].number == t[y].number :: x == y
  }

  ghost predicate AllMarked(t: Table) {
    forall y | y in t && t[y].regeneratedFrom.Some? ::
      var x := t[y].regeneratedFrom.value;
      x in t && t[x].supersededBy.Some?
  }

  /** The snapshot a call holds is still the newest version. */
  ghost predicate SnapshotFresh(t: Table, current: Version) {
    forall x | x in t && SameDocument(t[x], current) :: t[x].number != current.number + 1
  }

  /** The insert keeps the numbers distinct exactly when nobody has inserted since the read. */
  lemma {:induction false} InsertKeepsLinearExactly(s: State, c: nat, newId: VersionId)
    requires Linear(s.table) && Enabled(s, Insert(c, newId))
    ensures Linear(Next(s, Insert(c, newId)).table) <==> SnapshotFresh(s.table, s.calls[c].current)
  {
    var call := s.calls[c];
    var row := Successor(call.heldRequest, call.heldActor, call.currentId, call.current);
    assert row.number == call.current.number + 1 && SameDocument(row, call.current);
    LinearAfterInsert(s.table, newId, row);
  }

  lemma {:induction false} LinearAfterInsert(t: Table, newId: VersionId, row: Version)
    requires Linear(t) && newId !in t
    ensures Linear(t[newId := row]) <==> forall x | x in t && SameDocument(t[x], row) :: t[x].number != row.number
  {
    var t' := t[newId := row];
    assert forall x | x in t :: t'[x] == t[x];
    if x :| x in t && SameDocument(t[x], row) && t[x].number == row.number {
      assert SameDocument(t'[x], t'[newId]);
      assert !Linear(t');
    }
  }

  /** A run in which every insert is fresh. */
  ghost predicate NeverStale(s: State, run: seq<Action>)
    requires Possible(s, run)
    decreases |run|
  {
    run == [] ||
    (&& (run[0].Insert? ==> SnapshotFresh(s.table, s.calls[run[0].call].current))
     && NeverStale(Next(s, run[0]), run[1..]))
  }

  lemma {:induction false} StepKeepsLinear(s: State, a: Action)
    requires Inv(s) && Linear(s.table) && Enabled(s, a)
    requires a.Insert? ==> SnapshotFresh(s.table, s.calls[a.call].current)
    ensures Linear(Next(s, a).table)
  {
    if a.Insert? {
      InsertKeepsLinearExactly(s, a.call, a.newId);
    } else {
      if a.MarkSuperseded? { MarkKeepsLinear(s.table, s.calls[a.call].oldId, s.calls[a.call].newId); }
      if a.CreateRoot? { LinearAfterInsert(s.table, a.id, a.row); }
    }
  }

  /** Rows never vanish and never change their document or number, so a duplicate stays. */
  lemma {:induction false} DuplicateStays(s: State, a: Action)
    requires Enabled(s, a) && !Linear(s.table)
    ensures !Linear(Next(s, a).table)
  {
    var t, t' := s.table, Next(s, a).table;
    var x, y :| x in t && y in t && SameDocument(t[x], t[y]) && t[x].number == t[y].number && x != y;
    assert forall z | z in t :: z in t' && SameDocument(t'[z], t[z]) && t'[z].number == t[z].number;
    assert SameDocument(t'[x], t'[y]);
  }

  lemma {:induction false} DuplicatesStay(s: State, run: seq<Action>)
    requires Possible(s, run) && !Linear(s.table)
    ensures !Linear(After(s, run).table)
    decreases |run|
  {
    if run != [] {
      DuplicateStays(s, run[0]);
      DuplicatesStay(Next(s, run[0]), run[1..]);
    }
  }

  /** Over any run, the numbers stay distinct if and only if every insert was made from a fresh snapshot. */
  lemma {:induction false} LinearExactlyWhenNeverStale(s: State, run: seq<Action>)
    requires Inv(s) && Linear(s.table) && Possible(s, run)
    ensures Linear(After(s, run).table) <==> NeverStale(s, run)
    decreases |run|
  {
    if run != [] {
      StepKeepsInv(s, run[0]);
      if run[0].Insert? && !SnapshotFresh(s.table, s.calls[run[0].call].current) {
        InsertKeepsLinearExactly(s, run[0].call, run[0].newId);
        DuplicatesStay(Next(s, run[0]), run[1..]);
      } else {
        StepKeepsLinear(s, run[0]);
        LinearExactlyWhenNeverStale(Next(s, run[0]), run[1..]);
      }
    }
  }

  ghost predicate LinksInverse(t: Table) {
    forall x, y | x in t && y in t :: t[x].supersededBy == Some(y) <==> t[y].regeneratedFrom == Some(x)
  }

  /** Each document is one chain: mutually inverse links, one live version, no number skipped. */
  ghost predicate Chain(t: Table) {
    && LinksInverse(t)
    && (forall x, y | x in t && y in t && SameDocument(t[x], t[y])
                      && t[x].supersededBy.None? && t[y].supersededBy.None? :: x == y)
    && (forall x, y | x in t && y in t && SameDocument(t[x], t[y]) ::
          forall n | t[x].number <= n <= t[y].number :: NumberTaken(t, t[x], n))
  }

  ghost predicate NumberTaken(t: Table, v: Version, n: int) {
    exists z :: z in t && SameDocument(t[z], v) && t[z].number == n
  }

  /** The table between atomic calls. */
  ghost predicate Settled(t: Table) {
    Sound(t) && Linear(t) && AllMarked(t)
  }

  lemma {:induction false} NumberBetween(t: Table, x: VersionId, y: VersionId, n: int) returns (z: VersionId)
    requires ParentsLinked(t) && OneRoot(t) && x in t && y in t && SameDocument(t[x], t[y])
    requires t[x].number <= n <= t[y].number
    ensures z in t && SameDocument(t[z], t[x]) && t[z].number == n
    decreases t[y].number - n
  {
    if t[y].number == n {
      z := y;
    } else {
      var root := OneTree(t, x, y);
      assert t[y].regeneratedFrom.Some?;
      z := NumberBetween(t, x, t[y].regeneratedFrom.value, n);
    }
  }

  lemma {:induction false} SettledIsChain(t: Table)
    requires Settled(t)
    ensures Chain(t)
  {
    forall x, y | x in t && y in t ensures t[x].supersededBy == Some(y) <==> t[y].regeneratedFrom == Some(x) {
      if t[y].regeneratedFrom == Some(x) { OnlyChild(t, x, y); }
    }
    forall x, y | x in t && y in t && SameDocument(t[x], t[y]) && t[x].supersededBy.None? && t[y].supersededBy.None?
      ensures x == y
    {
      if t[x].number < t[y].number { OnlyHighestIsLive(t, x, y); }
      if t[y].number < t[x].number { OnlyHighestIsLive(t, y, x); }
    }
    forall x, y, n | x in t && y in t && SameDocument(t[x], t[y]) && t[x].number <= n <= t[y].number
      ensures NumberTaken(t, t[x], n)
    {
      var z := NumberBetween(t, x, y, n);
    }
  }

  lemma {:induction false} OnlyChild(t: Table, x: VersionId, y: VersionId)
    requires Settled(t) && x in t && y in t && t[y].regeneratedFrom == Some(x)
    ensures t[x].supersededBy == Some(y)
  {
    var y' := t[x].supersededBy.value;
    assert t[y'].regeneratedFrom == Some(x);
    assert SameDocument(t[y], t[y']) && t[y].number == t[y'].number;
  }

  lemma {:induction false} OnlyHighestIsLive(t: Table, x: VersionId, y: VersionId)
    requires Settled(t) && x in t && y in t && SameDocument(t[x], t[y]) && t[x].number < t[y].number
    ensures t[x].supersededBy.Some?
  {
    var z := NumberBetween(t, x, y, t[x].number + 1);
    var root := OneTree(t, x, z);
    var p := t[z].regeneratedFrom.value;
    assert SameDocument(t[p], t[x]) && t[p].number == t[x].number;
  }

  lemma {:induction false} ParentDescends(t: Table, root: VersionId, x: VersionId) returns (p: VersionId)
    requires ParentsLinked(t) && RootOf(t, root, x) && t[x].number > t[root].number
    ensures RootOf(t, root, p) && t[p].number == t[x].number - 1 && t[x].regeneratedFrom == Some(p)
  {
    p := t[x].regeneratedFrom.value;
  }

  /** In a chain a number belongs to one version: its path back to the root is forced. */
  lemma {:induction false} InverseIsLinear(t: Table, x: VersionId, y: VersionId, root: VersionId)
    requires ParentsLinked(t) && LinksInverse(t) && RootOf(t, root, x) && RootOf(t, root, y)
    requires t[x].number == t[y].number
    ensures x == y
    decreases t[x].number - t[root].number
  {
    if t[x].number == t[root].number {
      assert Ancestor(t, x, 0) == Some(root) && Ancestor(t, y, 0) == Some(root);
    } else {
      var p := ParentDescends(t, root, x);
      var q := ParentDescends(t, root, y);
      InverseIsLinear(t, p, q, root);
      assert t[p].supersededBy == Some(x) && t[p].supersededBy == Some(y);
    }
  }

  /** Once no call owes a mark, a run has left single chains if and only if no insert in it was stale. */
  lemma {:induction false} QuietRunIsChainExactly(run: seq<Action>)
    requires Possible(EMPTY, run)
    requires forall c | c in After(EMPTY, run).calls :: !After(EMPTY, run).calls[c].Inserted?
    ensures Chain(After(EMPTY, run).table) <==> NeverStale(EMPTY, run)
  {
    var t := After(EMPTY, run).table;
    EveryRunIsSound(run);
    LinearExactlyWhenNeverStale(EMPTY, run);
    if Linear(t) {
      SettledIsChain(t);
    } else if Chain(t) {
      var x, y :| x in t && y in t && SameDocument(t[x], t[y]) && t[x].number == t[y].number && x != y;
      var root := OneTree(t, x, y);
      InverseIsLinear(t, x, y, root);
    }
  }

  /** The table after one call that nothing interrupts. */
  ghost function AfterCall(t: Table, request: Request, actor: string, id: VersionId, newId: VersionId): Table
    requires id in t && newId !in t
  {
    Marked(t[newId := Successor(request, actor, id, t[id])], id, newId)
  }

  /** An atomic call keeps every document a chain, and its successor becomes the current version. */
  lemma {:induction false} AtomicCallKeepsChain(t: Table, request: Request, actor: string, id: VersionId,
                                                newId: VersionId)
    requires Settled(t) && newId !in t && id in t && IsCurrent(t, t[id].tenant, t[id].document, id)
    requires Refusal(request, actor, t[id]).None?
    ensures var t' := AfterCall(t, request, actor, id, newId);
            Settled(t') && Chain(t') && IsCurrent(t', t[id].tenant, t[id].document, newId)
  {
    var row := Successor(request, actor, id, t[id]);
    var t1 := t[newId := row];
    var t2 := AfterCall(t, request, actor, id, newId);
    InsertKeepsSound(t, request, actor, id, t[id], newId);
    MarkKeepsSound(t1, id, newId);
    LinearAfterCurrent(t, id, newId, row);
    MarkKeepsLinear(t1, id, newId);
    MarkCompletes(t, newId, row, id);
    SettledIsChain(t2);
    SuccessorIsCurrent(t, request, actor, id, newId);
  }

  /** One version more, made from the current one, which it supersedes; every other row as it was. */
  ghost predicate Extended(t: Table, t': Table, id: VersionId, newId: VersionId, request: Request, actor: string) {
    && id in t && newId !in t && t'.Keys == t.Keys + {newId}
    && MadeBy(t'[newId], t[id], request, actor)
    && t'[newId].regeneratedFrom == Some(id) && t'[newId].supersededBy.None?
    && t'[id] == t[id].(supersededBy := Some(newId))
    && forall x | x in t && x != id :: t'[x] == t[x]
  }

  lemma {:induction false} CallExtends(t: Table, request: Request, actor: string, id: VersionId, newId: VersionId)
    requires id in t && newId !in t && Refusal(request, actor, t[id]).None?
    ensures Extended(t, AfterCall(t, request, actor, id, newId), id, newId, request, actor)
  {
    assert MadeBy(Successor(request, actor, id, t[id]), t[id], request, actor);
  }

  lemma {:induction false} LinearAfterCurrent(t: Table, id: VersionId, newId: VersionId, row: Version)
    requires Settled(t) && newId !in t && id in t && IsCurrent(t, t[id].tenant, t[id].document, id)
    requires SameDocument(row, t[id]) && row.number == t[id].number + 1
    ensures Linear(t[newId := row])
  {
    CurrentIsHighest(t, id);
    LinearAfterInsert(t, newId, row);
  }

  lemma {:induction false} SuccessorIsCurrent(t: Table, request: Request, actor: string, id: VersionId,
                                              newId: VersionId)
    requires newId !in t && id in t && IsCurrent(t, t[id].tenant, t[id].document, id)
    ensures IsCurrent(AfterCall(t, request, actor, id, newId), t[id].tenant, t[id].document, newId)
  {
    var t2 := AfterCall(t, request, actor, id, newId);
    var row := Successor(request, actor, id, t[id]);
    assert t2[newId] == row && Of(row, t[id].tenant, t[id].document) && row.number == t[id].number + 1;
    forall x | Live(t2, t[id].tenant, t[id].document, x) ensures t2[x].number <= row.number {
      if x != newId && x != id {
        assert t2[x] == t[x];
        assert Live(t, t[id].tenant, t[id].document, x);
      }
    }
  }

  lemma {:induction false} MarkKeepsLinear(t: Table, oldId: VersionId, newId: VersionId)
    requires Linear(t) && oldId in t
    ensures Linear(Marked(t, oldId, newId))
  {
    assert forall x | x in t :: Marked(t, oldId, newId)[x].(supersededBy := None) == t[x].(supersededBy := None);
  }

  lemma {:induction false} MarkCompletes(t: Table, newId: VersionId, row: Version, id: VersionId)
    requires AllMarked(t) && ParentsLinked(t) && newId !in t && id in t && row.regeneratedFrom == Some(id)
    ensures AllMarked(Marked(t[newId := row], id, newId))
  {
    var t2 := Marked(t[newId := row], id, newId);
    forall y | y in t2 && t2[y].regeneratedFrom.Some?
      ensures t2[y].regeneratedFrom.value in t2 && t2[t2[y].regeneratedFrom.value].supersededBy.Some?
    {
      if y != newId { assert t[y].regeneratedFrom == t2[y].regeneratedFrom; }
    }
  }

  lemma {:induction false} RunFrom(s: State, a: Action, rest: seq<Action>)
    requires Enabled(s, a) && Possible(Next(s, a), rest)
    ensures Possible(s, [a] + rest) && After(s, [a] + rest) == After(Next(s, a), rest)
  {
    assert ([a] + rest)[1..] == rest;
  }

  /** The atomic call is the uninterrupted run of the four steps. */
  lemma {:induction false} AtomicCallIsARun(t: Table, request: Request, actor: string, id: VersionId,
                                            newId: VersionId)
    requires newId !in t && id in t && IsCurrent(t, t[id].tenant, t[id].document, id)
    requires Refusal(request, actor, t[id]).None?
    ensures var run := [Begin(0, t[id].tenant, t[id].document, request, actor), ReadCurrent(0, id),
                        Insert(0, newId), MarkSuperseded(0)];
            Possible(State(t, map[]), run)
            && After(State(t, map[]), run).table == AfterCall(t, request, actor, id, newId)
  {
    var s0 := State(t, map[]);
    var a0 := Begin(0, t[id].tenant, t[id].document, request, actor);
    var s1 := Next(s0, a0);
    var s2 := Next(s1, ReadCurrent(0, id));
    var s3 := Next(s2, Insert(0, newId));
    var s4 := Next(s3, MarkSuperseded(0));
    assert s4.table == AfterCall(t, request, actor, id, newId);
    RunFrom(s3, MarkSuperseded(0), []);
    RunFrom(s2, Insert(0, newId), [MarkSuperseded(0)]);
    RunFrom(s1, ReadCurrent(0, id), [Insert(0, newId)] + [MarkSuperseded(0)]);
    RunFrom(s0, a0, [ReadCurrent(0, id)] + ([Insert(0, newId)] + [MarkSuperseded(0)]));
    assert [a0, ReadCurrent(0, id), Insert(0, newId), MarkSuperseded(0)]
        == [a0] + ([ReadCurrent(0, id)] + ([Insert(0, newId)] + [MarkSuperseded(0)]));
  }

  /** Without atomicity the chain is lost: two racing reviews leave two live versions numbered alike. */
  lemma {:induction false} RacingReviewsFork() returns (run: seq<Action>)
    ensures Possible(EMPTY, run)
    ensures var t := After(EMPTY, run).table;
            Live(t, "t", "d", 1) && Live(t, "t", "d", 2) && t[1].number == t[2].number
    ensures forall c | c in After(EMPTY, run).calls :: After(EMPTY, run).calls[c].Finished?
  {
    var root := Version("t", "d", 1, "generated", "text", None, None, None, None, None);
    var a0, a1, a2 := CreateRoot(0, root), Begin(0, "t", "d", Review, "ann"), Begin(1, "t", "d", Review, "bob");
    var a3, a4, a5, a6 := ReadCurrent(0, 0), ReadCurrent(1, 0), Insert(0, 1), Insert(1, 2);
    var a7, a8 := MarkSuperseded(0), MarkSuperseded(1);
    var s1 := Next(EMPTY, a0);
    var s2 := Next(s1, a1);
    var s3 := Next(s2, a2);
    assert IsCurrent(s3.table, "t", "d", 0);
    var s4 := Next(s3, a3);
    var s5 := Next(s4, a4);
    var s6 := Next(s5, a5);
    var s7 := Next(s6, a6);
    var s8 := Next(s7, a7);
    var s9 := Next(s8, a8);
    run := [a8];                 RunFrom(s8, a8, []);
    RunFrom(s7, a7, run);        run := [a7] + run;
    RunFrom(s6, a6, run);        run := [a6] + run;
    RunFrom(s5, a5, run);        run := [a5] + run;
    RunFrom(s4, a4, run);        run := [a4] + run;
    RunFrom(s3, a3, run);        run := [a3] + run;
    RunFrom(s2, a2, run);        run := [a2] + run;
    RunFrom(s1, a1, run);        run := [a1] + run;
    RunFrom(EMPTY, a0, run);     run := [a0] + run;
    assert After(EMPTY, run) == s9;
  }

  // ---------------------------------------------------------------------------
  // The service, one call at a time
  // ---------------------------------------------------------------------------

  class DocumentService {
    var table: Table

    constructor ()
      ensures table == map[] && Settled(table)
    {
      table := map[];
    }

    /** The unsuperseded version of the highest number. */
    method GetCurrentDocumentVersion(document: string, tenant: string) returns (current: Option<VersionId>)
      ensures current.None? <==> forall x :: !Live(table, tenant, document, x)
      ensures current.Some? ==> IsCurrent(table, tenant, document, current.value)
    {
      current := None;
      var unread := table.Keys;
      while unread != {}
        invariant unread <= table.Keys
        invariant current.None? ==> forall x | Live(table, tenant, document, x) :: x in unread
        invariant current.Some? ==> Live(table, tenant, document, current.value)
        invariant current.Some? ==> forall x | Live(table, tenant, document, x) && x !in unread ::
                                      table[x].number <= table[current.value].number
        decreases unread
      {
        var x :| x in unread;
        unread := unread - {x};
        if Live(table, tenant, document, x) && (current.None? || table[current.value].number < table[x].number) {
          current := Some(x);
        }
      }
    }

    method CreateDocumentVersion(newId: VersionId, row: Version)
      modifies this
      ensures table == old(table)[newId := row]
    {
      table := table[newId := row];
    }

    /** Read, check, insert, mark: the body the three public calls share. */
    method Advance(document: string, tenant: string, request: Request, actor: string, newId: VersionId)
      returns (r: Result<Option<Version>>, ghost from: Option<VersionId>)
      requires newId !in table
      modifies this
      ensures from.None? <==> forall x :: !Live(old(table), tenant, document, x)
      ensures from.None? ==> r == Ok(None) && table == old(table)
      ensures from.Some? ==>
                && IsCurrent(old(table), tenant, document, from.value)
                && var refusal := Refusal(request, actor, old(table)[from.value]);
                   if refusal.Some? then r == Err(refusal.value) && table == old(table)
                   else && r == Ok(Some(Successor(request, actor, from.value, old(table)[from.value])))
                        && table == AfterCall(old(table), request, actor, from.value, newId)
      ensures from.Some? ==>
                var current := old(table)[from.value];
                && (r.Err? <==> request.Approve? && (current.status != "reviewed"
                                                     || NotByAnother(current.reviewedBy, actor)))
                && (r.Err? ==> table == old(table))
                && (r.Ok? ==>
                      && Extended(old(table), table, from.value, newId, request, actor)
                      && r == Ok(Some(table[newId])))
      ensures old(Settled(table)) ==> Settled(table)
    {
      var current := GetCurrentDocumentVersion(document, tenant);
      from := current;
      if current.None? {
        return Ok(None), None;
      }
      var id := current.value;
      var snapshot := table[id];
      var refusal := Refusal(request, actor, snapshot);
      if refusal.Some? {
        return Err(refusal.value), current;
      }
      ghost var before := table;
      var row := Successor(request, actor, id, snapshot);
      CreateDocumentVersion(newId, row);
      table := Marked(table, id, newId);
      r := Ok(Some(row));
      CallExtends(before, request, actor, id, newId);
      if Settled(before) {
        AtomicCallKeepsChain(before, request, actor, id, newId);
      }
    }
  }
}
