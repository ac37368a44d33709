/**
  The asset lifecycle: generate, evaluate, approve, reject, revise, reset, and the gate in front of
  a publishing package. Rows are kept in creation order, so a row's id and its age are its
  position; a deleted row keeps its place. Calls that read in one session and write in a later
  one are in flight in between, and anything may happen meanwhile.
 */
module Assets {
  import opened Wrappers

  datatype Asset = Asset(
    id: nat,
    tenant: string,
    book: string,
    document: Option<string>,
    parent: Option<nat>,
    kind: string,
    content: string,
    governance: string,
    approval: string,
    correction: Option<string>,
    appliedPreference: bool,
    evaluation: Option<string>,
    deleted: bool)

  datatype Payload = Payload(kind: string, content: string)

  /** How far an approval has come: it found the asset pending and evaluates it, or nothing stands in its way. */
  datatype Approval = Checking(id: nat) | Cleared(id: nat)

  /** What a generation or a revision has read, and will insert under. */
  datatype Draft = Draft(tenant: string, book: string, document: string, parent: Option<nat>, correction: Option<string>)

  /**
    The assets; the books and documents there are, and whose each id is or was; and the calls in flight. An id never
    changes hands: random ones are used once, and the seed's belong to the owner of the seed author.
   */
  datatype Db = Db(
    assets: seq<Asset>,
    books: set<string>,
    bookOwner: map<string, string>,
    documents: set<string>,
    documentOwner: map<string, string>,
    drafting: map<nat, Draft>,
    approving: map<nat, Approval>)

  const LABELS := {"allow", "review", "block"}
  const SEED_BOOK := "seed-book-manuscript-to-launch"
  const SEED_DOCUMENT := "seed-document-excerpt"

  // ---------------------------------------------------------------------------
  // The steps
  // ---------------------------------------------------------------------------

  predicate Owns(db: Db, tenant: string, book: string) {
    book in db.books && book in db.bookOwner && db.bookOwner[book] == tenant
  }

  predicate OwnsDocument(db: Db, tenant: string, document: string) {
    document in db.documents && document in db.documentOwner && db.documentOwner[document] == tenant
  }

  predicate Found(db: Db, tenant: string, id: nat) {
    id < |db.assets| && !db.assets[id].deleted && db.assets[id].tenant == tenant && Owns(db, tenant, db.assets[id].book)
  }

  function Fresh(id: nat, d: Draft, p: Payload): Asset {
    Asset(id, d.tenant, d.book, Some(d.document), d.parent, p.kind, p.content, "pending", "draft", d.correction,
          d.parent.Some?, None, false)
  }

  function Persisted(assets: seq<Asset>, d: Draft, payloads: seq<Payload>): seq<Asset> {
    if payloads == [] then assets
    else
      var before := Persisted(assets, d, payloads[..|payloads| - 1]);
      before + [Fresh(|before|, d, payloads[|payloads| - 1])]
  }

  function Evaluated(a: Asset, verdict: string): Asset {
    a.(governance := verdict, evaluation := Some(verdict))
  }

  /** What an uninterrupted approval leaves: a pending asset is evaluated first, and a blocked one is not approved. */
  function Approved(a: Asset, verdict: string): Asset {
    var seen := if a.governance == "pending" then Evaluated(a, verdict) else a;
    if seen.governance == "block" then seen else seen.(approval := "approved")
  }

  datatype Op =
    | CreateBook(tenant: string, book: string)
    | SaveDocument(tenant: string, book: string, document: string)
    | StartGenerate(call: nat, tenant: string, book: string, document: string)
    | StartRevise(call: nat, tenant: string, id: nat, correction: string)
    | InsertDrafts(call: nat, payloads: seq<Payload>)
    | Evaluate(tenant: string, id: nat, verdict: string)
    | CheckApproval(call: nat, tenant: string, id: nat)
    | EvaluateForApproval(call: nat, verdict: string)
    | GrantApproval(call: nat)
    | Reject(tenant: string, id: nat, note: Option<string>)
    | DeleteRows(tenant: string)
    | PlantSeed(tenant: string)

  predicate Unheld(owner: map<string, string>, id: string, tenant: string) {
    id in owner ==> owner[id] == tenant
  }

  /** The verdicts an evaluation can give, fresh ids, and the tenants a seed lets plant. */
  predicate Legal(db: Db, op: Op) {
    match op
    case CreateBook(_, book) => book !in db.bookOwner && book != SEED_BOOK
    case SaveDocument(_, _, document) => document !in db.documentOwner && document != SEED_DOCUMENT
    case StartGenerate(call, _, _, _) => call !in db.drafting
    case StartRevise(call, _, _, _) => call !in db.drafting
    case Evaluate(_, _, verdict) => verdict in LABELS
    case CheckApproval(call, _, _) => call !in db.approving
    case EvaluateForApproval(_, verdict) => verdict in LABELS
    case PlantSeed(tenant) => Unheld(db.bookOwner, SEED_BOOK, tenant) && Unheld(db.documentOwner, SEED_DOCUMENT, tenant)
    case _ => true
  }

  /** The foreign keys the insert of a draft must meet; its parent is not one of them. */
  predicate Insertable(db: Db, d: Draft) {
    d.book in db.books && d.document in db.documents
  }

  /** The approval in flight still finds its asset. */
  predicate StillThere(db: Db, call: nat) {
    call in db.approving && db.approving[call].id < |db.assets| && !db.assets[db.approving[call].id].deleted
  }

  predicate OfTenantBooks(db: Db, a: Asset, tenant: string) {
    Owns(db, tenant, a.book)
  }

  function WithoutBooks(db: Db, tenant: string): (assets: seq<Asset>)
    ensures |assets| == |db.assets|
    ensures forall i | 0 <= i < |assets| ::
              assets[i] == if OfTenantBooks(db, db.assets[i], tenant) then db.assets[i].(deleted := true) else db.assets[i]
  {
    seq(|db.assets|, i requires 0 <= i < |db.assets| =>
      if OfTenantBooks(db, db.assets[i], tenant) then db.assets[i].(deleted := true) else db.assets[i])
  }

  function Next(db: Db, op: Op): Db {
    match op
    case CreateBook(tenant, book) => db.(books := db.books + {book}, bookOwner := db.bookOwner[book := tenant])
    case SaveDocument(tenant, book, document) =>
      if Owns(db, tenant, book)
      then db.(documents := db.documents + {document}, documentOwner := db.documentOwner[document := tenant])
      else db
    case StartGenerate(call, tenant, book, document) =>
      if Owns(db, tenant, book) && OwnsDocument(db, tenant, document)
      then db.(drafting := db.drafting[call := Draft(tenant, book, document, None, None)])
      else db
    case StartRevise(call, tenant, id, correction) =>
      if Revisable(db, tenant, id)
      then db.(drafting := db.drafting[call := Revision(db.assets[id], correction)])
      else db
    case InsertDrafts(call, payloads) =>
      if call !in db.drafting then db
      else if Insertable(db, db.drafting[call])
      then db.(assets := Persisted(db.assets, db.drafting[call], payloads), drafting := db.drafting - {call})
      else db.(drafting := db.drafting - {call})
    case Evaluate(tenant, id, verdict) =>
      if Found(db, tenant, id) then db.(assets := db.assets[id := Evaluated(db.assets[id], verdict)]) else db
    case CheckApproval(call, tenant, id) =>
      if Found(db, tenant, id) && db.assets[id].governance != "block"
      then db.(approving := db.approving[call := if db.assets[id].governance == "pending" then Checking(id) else Cleared(id)])
      else db
    case EvaluateForApproval(call, verdict) =>
      if !(call in db.approving && db.approving[call].Checking?) then db
      else if !StillThere(db, call) then db.(approving := db.approving - {call})
      else
        var id := db.approving[call].id;
        db.(assets := db.assets[id := Evaluated(db.assets[id], verdict)],
            approving := if verdict == "block" then db.approving - {call} else db.approving[call := Cleared(id)])
    case GrantApproval(call) =>
      if !(call in db.approving && db.approving[call].Cleared?) then db
      else if !StillThere(db, call) then db.(approving := db.approving - {call})
      else
        var id := db.approving[call].id;
        db.(assets := db.assets[id := db.assets[id].(approval := "approved")], approving := db.approving - {call})
    case Reject(tenant, id, note) =>
      if Found(db, tenant, id)
      then db.(assets := db.assets[id := db.assets[id].(approval := "rejected", correction := note)])
      else db
    case DeleteRows(tenant) =>
      db.(assets := WithoutBooks(db, tenant),
          documents := (set x | x in db.documents && !OwnsDocument(db, tenant, x)),
          books := (set x | x in db.books && !Owns(db, tenant, x)))
    case PlantSeed(tenant) =>
      db.(books := db.books + {SEED_BOOK}, bookOwner := db.bookOwner[SEED_BOOK := tenant],
          documents := db.documents + {SEED_DOCUMENT}, documentOwner := db.documentOwner[SEED_DOCUMENT := tenant])
  }

  /** What a revision needs to be there when it reads: the asset, and its source document. */
  predicate Revisable(db: Db, tenant: string, id: nat) {
    && Found(db, tenant, id) && db.assets[id].document.Some? && db.assets[id].document.value != ""
    && OwnsDocument(db, tenant, db.assets[id].document.value)
  }

  function Revision(a: Asset, correction: string): Draft
    requires a.document.Some?
  {
    Draft(a.tenant, a.book, a.document.value, Some(a.id), Some(correction))
  }

  // ---------------------------------------------------------------------------
  // Listing and the gate
  // ---------------------------------------------------------------------------

  /** A tenant's assets for a book, newest first. */
  function Listed(assets: seq<Asset>, tenant: string, book: string): seq<Asset> {
    if assets == [] then []
    else
      var last := assets[|assets| - 1];
      (if !last.deleted && last.tenant == tenant && last.book == book then [last] else [])
      + Listed(assets[..|assets| - 1], tenant, book)
  }

  /** `if row.type not in latest: latest[row.type] = row`, over the rows as listed. */
  function FirstWins(rows: seq<Asset>): map<string, Asset> {
    if rows == [] then map[]
    else
      var latest, last := FirstWins(rows[..|rows| - 1]), rows[|rows| - 1];
      if last.kind in latest then latest else latest[last.kind := last]
  }

  function Reversed(rows: seq<Asset>): seq<Asset> {
    if rows == [] then [] else Reversed(rows[1..]) + [rows[0]]
  }

  /** `{row.type: row for row in rows}` */
  function LastWins(rows: seq<Asset>): map<string, Asset> {
    if rows == [] then map[]
    else LastWins(rows[..|rows| - 1])[rows[|rows| - 1].kind := rows[|rows| - 1]]
  }

  function FirstOfKind(rows: seq<Asset>, kind: string): Option<Asset> {
    if rows == [] then None else if rows[0].kind == kind then Some(rows[0]) else FirstOfKind(rows[1..], kind)
  }

  lemma {:induction false} FirstWinsIsFirst(rows: seq<Asset>, kind: string)
    ensures FirstOfKind(rows, kind) == if kind in FirstWins(rows) then Some(FirstWins(rows)[kind]) else None
  {
    if rows != [] {
      var k := |rows| - 1;
      FirstWinsIsFirst(rows[..k], kind);
      FirstOfKindAppend(rows[..k], rows[k], kind);
      assert rows == rows[..k] + [rows[k]];
    }
  }

  lemma {:induction false} FirstOfKindAppend(rows: seq<Asset>, last: Asset, kind: string)
    ensures FirstOfKind(rows + [last], kind)
         == if FirstOfKind(rows, kind).Some? then FirstOfKind(rows, kind)
            else if last.kind == kind then Some(last) else None
  {
    if rows != [] {
      FirstOfKindAppend(rows[1..], last, kind);
      assert (rows + [last])[1..] == rows[1..] + [last];
    }
  }

  lemma {:induction false} LastWinsReversedIsFirst(rows: seq<Asset>, kind: string)
    ensures FirstOfKind(rows, kind) == if kind in LastWins(Reversed(rows)) then Some(LastWins(Reversed(rows))[kind]) else None
  {
    if rows != [] {
      LastWinsReversedIsFirst(rows[1..], kind);
      assert Reversed(rows)[..|Reversed(rows)| - 1] == Reversed(rows[1..]);
    }
  }

  /** For every list, the gate's last-wins choice on the reversed rows is current_assets' first-wins choice. */
  lemma {:induction false} GateChoosesCurrent(rows: seq<Asset>)
    ensures LastWins(Reversed(rows)) == FirstWins(rows)
  {
    forall kind ensures kind in LastWins(Reversed(rows)) <==> kind in FirstWins(rows)
      ensures kind in FirstWins(rows) ==> LastWins(Reversed(rows))[kind] == FirstWins(rows)[kind]
    {
      FirstWinsIsFirst(rows, kind);
      LastWinsReversedIsFirst(rows, kind);
    }
  }

  predicate IsOne(a: Asset, tenant: string, book: string, kind: string) {
    !a.deleted && a.tenant == tenant && a.book == book && a.kind == kind
  }

  /** The newest asset of a kind. */
  function NewestOf(assets: seq<Asset>, tenant: string, book: string, kind: string): Option<nat> {
    if assets == [] then None
    else if IsOne(assets[|assets| - 1], tenant, book, kind) then Some(|assets| - 1)
    else NewestOf(assets[..|assets| - 1], tenant, book, kind)
  }

  lemma {:induction false} NewestIsListedFirst(assets: seq<Asset>, tenant: string, book: string, kind: string)
    ensures var k := NewestOf(assets, tenant, book, kind);
            && (k.Some? ==> k.value < |assets|)
            && FirstOfKind(Listed(assets, tenant, book), kind) == if k.None? then None else Some(assets[k.value])
  {
    if assets != [] {
      NewestIsListedFirst(assets[..|assets| - 1], tenant, book, kind);
      var last, rest := assets[|assets| - 1], Listed(assets[..|assets| - 1], tenant, book);
      assert ([last] + rest)[1..] == rest && [] + rest == rest;
    }
  }

  lemma {:induction false} NewestIsNewest(assets: seq<Asset>, tenant: string, book: string, kind: string)
    ensures var k := NewestOf(assets, tenant, book, kind);
            if k.None? then forall i | 0 <= i < |assets| :: !IsOne(assets[i], tenant, book, kind)
            else && k.value < |assets| && IsOne(assets[k.value], tenant, book, kind)
                 && forall i | k.value < i < |assets| :: !IsOne(assets[i], tenant, book, kind)
    ensures FirstOfKind(Listed(assets, tenant, book), kind)
         == if NewestOf(assets, tenant, book, kind).None? then None
            else Some(assets[NewestOf(assets, tenant, book, kind).value])
  {
    NewestIsListedFirst(assets, tenant, book, kind);
    if assets != [] {
      NewestIsNewest(assets[..|assets| - 1], tenant, book, kind);
    }
  }

  /** The newest is determined by which rows are ones of the kind. */
  lemma {:induction false} NewestIs(assets: seq<Asset>, tenant: string, book: string, kind: string, k: Option<nat>)
    requires if k.None? then forall i | 0 <= i < |assets| :: !IsOne(assets[i], tenant, book, kind)
             else k.value < |assets| && IsOne(assets[k.value], tenant, book, kind)
                  && forall i | k.value < i < |assets| :: !IsOne(assets[i], tenant, book, kind)
    ensures NewestOf(assets, tenant, book, kind) == k
  {
    NewestIsNewest(assets, tenant, book, kind);
  }

  /** required_assets_approved: the newest description is approved and not blocked. */
  predicate GateOpen(db: Db, tenant: string, book: string) {
    var k := NewestOf(db.assets, tenant, book, "description");
    k.Some? && k.value < |db.assets| && db.assets[k.value].approval == "approved" && db.assets[k.value].governance != "block"
  }

  predicate RequiredApproved(rows: seq<Asset>) {
    var latest := LastWins(Reversed(rows));
    "description" in latest && latest["description"].approval == "approved" && latest["description"].governance != "block"
  }

  lemma {:induction false} GateIsRequiredApproved(db: Db, tenant: string, book: string)
    ensures GateOpen(db, tenant, book) <==> RequiredApproved(Listed(db.assets, tenant, book))
  {
    var rows := Listed(db.assets, tenant, book);
    GateChoosesCurrent(rows);
    FirstWinsIsFirst(rows, "description");
    NewestIsNewest(db.assets, tenant, book, "description");
  }

  // ---------------------------------------------------------------------------
  // What one step does to a row
  // ---------------------------------------------------------------------------

  /** The asset a step evaluates, and the verdict it stores. */
  function Verdict(db: Db, op: Op): Option<(nat, string)> {
    if op.Evaluate? && Found(db, op.tenant, op.id) then Some((op.id, op.verdict))
    else if op.EvaluateForApproval? && StillThere(db, op.call) && db.approving[op.call].Checking?
    then Some((db.approving[op.call].id, op.verdict))
    else None
  }

  /** The asset a step approves. */
  function Grants(db: Db, op: Op): Option<nat> {
    if op.GrantApproval? && StillThere(db, op.call) && db.approving[op.call].Cleared?
    then Some(db.approving[op.call].id) else None
  }

  function Rejects(db: Db, op: Op): Option<nat> {
    if op.Reject? && Found(db, op.tenant, op.id) then Some(op.id) else None
  }

  predicate SameRow(a: Asset, b: Asset) {
    a.tenant == b.tenant && a.book == b.book && a.kind == b.kind && a.parent == b.parent && a.document == b.document
  }

  lemma {:induction false} StepOnRow(db: Db, op: Op, i: nat)
    requires i < |db.assets|
    ensures var db' := Next(db, op);
            && i < |db'.assets| && SameRow(db'.assets[i], db.assets[i])
            && db'.assets[i].governance == (if Verdict(db, op).Some? && Verdict(db, op).value.0 == i
                                            then Verdict(db, op).value.1 else db.assets[i].governance)
            && db'.assets[i].approval == (if Grants(db, op) == Some(i) then "approved"
                                          else if Rejects(db, op) == Some(i) then "rejected"
                                          else db.assets[i].approval)
            && (db'.assets[i].deleted <==>
                  db.assets[i].deleted || (op.DeleteRows? && OfTenantBooks(db, db.assets[i], op.tenant)))
  {
    if op.InsertDrafts? && op.call in db.drafting {
      PersistedExtends(db.assets, db.drafting[op.call], op.payloads);
    }
  }

  /** Rows past the old end are drafts of the call that inserts them. */
  lemma {:induction false} StepAppends(db: Db, op: Op, i: nat)
    requires |db.assets| <= i < |Next(db, op).assets|
    ensures op.InsertDrafts? && op.call in db.drafting && Insertable(db, db.drafting[op.call])
    ensures i - |db.assets| < |op.payloads|
         && Next(db, op).assets[i] == Fresh(i, db.drafting[op.call], op.payloads[i - |db.assets|])
  {
    if op.InsertDrafts? && op.call in db.drafting {
      PersistedExtends(db.assets, db.drafting[op.call], op.payloads);
    }
  }

  // ---------------------------------------------------------------------------
  // Invariants of every run
  // ---------------------------------------------------------------------------

  predicate WellFormed(db: Db, i: nat)
    requires i < |db.assets|
  {
    var a := db.assets[i];
    && a.id == i && a.book in db.bookOwner && db.bookOwner[a.book] == a.tenant
    && (!a.deleted ==> a.book in db.books && (a.document.Some? ==> a.document.value in db.documents))
    && (a.document.Some? ==> a.document.value in db.documentOwner && db.documentOwner[a.document.value] == a.tenant)
    && (if a.governance == "pending" then a.evaluation.None? else a.evaluation == Some(a.governance))
    && (a.governance == "pending" || a.governance in LABELS)
    && (a.approval == "approved" ==> a.governance != "pending")
    && (a.parent.Some? ==>
          a.parent.value < i && db.assets[a.parent.value].book == a.book && db.assets[a.parent.value].tenant == a.tenant)
  }

  /** What is cleared has been evaluated. */
  predicate ApprovalAgrees(db: Db, a: Approval) {
    a.id < |db.assets| && (a.Cleared? ==> db.assets[a.id].governance != "pending")
  }

  /** A draft's book, document and parent are or were the tenant's. */
  predicate DraftAgrees(db: Db, d: Draft) {
    && d.book in db.bookOwner && db.bookOwner[d.book] == d.tenant
    && d.document in db.documentOwner && db.documentOwner[d.document] == d.tenant
    && (d.parent.Some? ==>
          d.parent.value < |db.assets| && db.assets[d.parent.value].book == d.book
          && db.assets[d.parent.value].tenant == d.tenant)
  }

  predicate RowsWellFormed(db: Db) {
    forall i | 0 <= i < |db.assets| :: WellFormed(db, i)
  }

  predicate CallsAgree(db: Db) {
    && (forall c | c in db.approving :: ApprovalAgrees(db, db.approving[c]))
    && (forall c | c in db.drafting :: DraftAgrees(db, db.drafting[c]))
  }

  predicate Inv(db: Db) {
    RowsWellFormed(db) && CallsAgree(db)
  }

  lemma {:induction false} PersistedExtends(assets: seq<Asset>, d: Draft, payloads: seq<Payload>)
    ensures var after := Persisted(assets, d, payloads);
            && |after| == |assets| + |payloads| && assets <= after
            && forall i | |assets| <= i < |after| :: after[i] == Fresh(i, d, payloads[i - |assets|])
  {
    if payloads != [] {
      PersistedExtends(assets, d, payloads[..|payloads| - 1]);
    }
  }

  /** Rows never vanish or change what they are; owners never change. */
  predicate Grown(db: Db, after: Db) {
    && |db.assets| <= |after.assets|
    && (forall i | 0 <= i < |db.assets| ::
          && after.assets[i].tenant == db.assets[i].tenant && after.assets[i].book == db.assets[i].book
          && (db.assets[i].governance != "pending" ==> after.assets[i].governance != "pending"))
    && (forall x | x in db.bookOwner :: x in after.bookOwner && after.bookOwner[x] == db.bookOwner[x])
    && (forall x | x in db.documentOwner :: x in after.documentOwner && after.documentOwner[x] == db.documentOwner[x])
  }

  lemma {:induction false} GrownKeepsCalls(db: Db, after: Db)
    requires Grown(db, after) && CallsAgree(db)
    ensures CallsAgree(after.(approving := db.approving, drafting := db.drafting))
  {
    forall c | c in db.approving ensures ApprovalAgrees(after.(approving := db.approving, drafting := db.drafting), db.approving[c]) {
      assert ApprovalAgrees(db, db.approving[c]);
    }
    forall c | c in db.drafting ensures DraftAgrees(after.(approving := db.approving, drafting := db.drafting), db.drafting[c]) {
      assert DraftAgrees(db, db.drafting[c]);
    }
  }

  lemma {:induction false} OwnersStay(db: Db, op: Op)
    requires Legal(db, op)
    ensures var db' := Next(db, op);
            && (forall x | x in db.bookOwner :: x in db'.bookOwner && db'.bookOwner[x] == db.bookOwner[x])
            && (forall x | x in db.documentOwner :: x in db'.documentOwner && db'.documentOwner[x] == db.documentOwner[x])
  {
  }

  lemma {:induction false} StepGrows(db: Db, op: Op)
    requires Legal(db, op)
    ensures Grown(db, Next(db, op))
  {
    OwnersStay(db, op);
    var after := Next(db, op).assets;
    assert Verdict(db, op).Some? ==> Verdict(db, op).value.1 in LABELS && "pending" !in LABELS;
    forall i | 0 <= i < |db.assets|
      ensures i < |after| && SameRow(after[i], db.assets[i])
      ensures db.assets[i].governance != "pending" ==> after[i].governance != "pending"
    {
      StepOnRow(db, op, i);
    }
    if db.assets != [] { StepOnRow(db, op, |db.assets| - 1); }
  }

  lemma {:induction false} StepKeepsApprovals(db: Db, op: Op, c: nat)
    requires Inv(db) && Legal(db, op) && c in Next(db, op).approving
    requires c in db.approving ==> ApprovalAgrees(Next(db, op).(approving := db.approving, drafting := db.drafting), db.approving[c])
    ensures ApprovalAgrees(Next(db, op), Next(db, op).approving[c])
  {
    if op.EvaluateForApproval? && c == op.call { assert ApprovalAgrees(db, db.approving[c]); }
  }

  lemma {:induction false} StepKeepsDrafts(db: Db, op: Op, c: nat)
    requires Inv(db) && Legal(db, op) && c in Next(db, op).drafting
    requires c in db.drafting ==> DraftAgrees(Next(db, op).(approving := db.approving, drafting := db.drafting), db.drafting[c])
    ensures DraftAgrees(Next(db, op), Next(db, op).drafting[c])
  {
    if op.StartRevise? && c == op.call && c !in db.drafting { assert WellFormed(db, op.id); }
  }

  lemma {:induction false} StepKeepsCalls(db: Db, op: Op)
    requires Inv(db) && Legal(db, op)
    ensures CallsAgree(Next(db, op))
  {
    var db' := Next(db, op);
    StepGrows(db, op);
    GrownKeepsCalls(db, db');
    forall c | c in db'.approving ensures ApprovalAgrees(db', db'.approving[c]) {
      StepKeepsApprovals(db, op, c);
    }
    forall c | c in db'.drafting ensures DraftAgrees(db', db'.drafting[c]) {
      StepKeepsDrafts(db, op, c);
    }
  }

  /** The inserted rows meet every foreign key, and have the parent the draft was read with. */
  lemma {:induction false} InsertedWellFormed(db: Db, call: nat, payloads: seq<Payload>)
    requires Inv(db) && call in db.drafting && Insertable(db, db.drafting[call])
    ensures RowsWellFormed(Next(db, InsertDrafts(call, payloads)))
  {
    var db' := Next(db, InsertDrafts(call, payloads));
    PersistedExtends(db.assets, db.drafting[call], payloads);
    assert DraftAgrees(db, db.drafting[call]);
    forall i | 0 <= i < |db'.assets| ensures WellFormed(db', i) {
      if i < |db.assets| { assert WellFormed(db, i); }
    }
  }

  lemma {:induction false} DeletedWellFormed(db: Db, tenant: string)
    requires RowsWellFormed(db)
    ensures RowsWellFormed(Next(db, DeleteRows(tenant)))
  {
    var db' := Next(db, DeleteRows(tenant));
    forall i | 0 <= i < |db'.assets| ensures WellFormed(db', i) {
      assert WellFormed(db, i);
    }
  }

  /** A row may change its verdict and record together, and its approval once it has one. */
  lemma {:induction false} UpdateKeepsRows(db: Db, id: nat, a: Asset)
    requires RowsWellFormed(db) && id < |db.assets|
    requires a.(governance := "", approval := "", correction := None, evaluation := None)
          == db.assets[id].(governance := "", approval := "", correction := None, evaluation := None)
    requires if a.governance == "pending" then a.evaluation.None?
             else a.governance in LABELS && a.evaluation == Some(a.governance)
    requires a.approval == "approved" ==> a.governance != "pending"
    ensures RowsWellFormed(db.(assets := db.assets[id := a]))
  {
    var db' := db.(assets := db.assets[id := a]);
    forall i | 0 <= i < |db'.assets| ensures WellFormed(db', i) {
      assert WellFormed(db, i);
    }
  }

  /** Rows look at the assets and at the ids there are, and ids may only be added. */
  lemma {:induction false} IdsMayGrow(db: Db, after: Db)
    requires RowsWellFormed(db) && after.assets == db.assets && db.books <= after.books && db.documents <= after.documents
    requires forall x | x in db.bookOwner :: x in after.bookOwner && after.bookOwner[x] == db.bookOwner[x]
    requires forall x | x in db.documentOwner :: x in after.documentOwner && after.documentOwner[x] == db.documentOwner[x]
    ensures RowsWellFormed(after)
  {
    forall i | 0 <= i < |after.assets| ensures WellFormed(after, i) {
      assert WellFormed(db, i);
    }
  }

  lemma {:induction false} StepKeepsRows(db: Db, op: Op)
    requires Inv(db) && Legal(db, op)
    ensures RowsWellFormed(Next(db, op))
  {
    var db' := Next(db, op);
    match op
    case InsertDrafts(call, payloads) =>
      if call in db.drafting && Insertable(db, db.drafting[call]) {
        InsertedWellFormed(db, call, payloads);
      } else {
        IdsMayGrow(db, db');
      }
    case DeleteRows(tenant) => DeletedWellFormed(db, tenant);
    case Evaluate(tenant, id, verdict) =>
      if Found(db, tenant, id) {
        assert WellFormed(db, id);
        UpdateKeepsRows(db, id, Evaluated(db.assets[id], verdict));
      }
    case Reject(tenant, id, note) =>
      if Found(db, tenant, id) {
        assert WellFormed(db, id);
        UpdateKeepsRows(db, id, db.assets[id].(approval := "rejected", correction := note));
      }
    case EvaluateForApproval(call, verdict) => ApprovalStepKeepsRows(db, op, call);
    case GrantApproval(call) => ApprovalStepKeepsRows(db, op, call);
    case _ => IdsMayGrow(db, db');
  }

  lemma {:induction false} ApprovalStepKeepsRows(db: Db, op: Op, call: nat)
    requires Inv(db) && Legal(db, op)
    requires op == GrantApproval(call) || (op.EvaluateForApproval? && op.call == call)
    ensures RowsWellFormed(Next(db, op))
  {
    var db' := Next(db, op);
    if call in db.approving && StillThere(db, call) {
      var id := db.approving[call].id;
      assert ApprovalAgrees(db, db.approving[call]) && WellFormed(db, id);
      if op.GrantApproval? && db.approving[call].Cleared? {
        UpdateKeepsRows(db, id, db.assets[id].(approval := "approved"));
        IdsMayGrow(db.(assets := db'.assets), db');
      } else if op.EvaluateForApproval? && db.approving[call].Checking? {
        UpdateKeepsRows(db, id, Evaluated(db.assets[id], op.verdict));
        IdsMayGrow(db.(assets := db'.assets), db');
      }
    }
    if db'.assets == db.assets {
      IdsMayGrow(db, db');
    }
  }

  lemma {:induction false} StepKeepsInv(db: Db, op: Op)
    requires Inv(db) && Legal(db, op)
    ensures Inv(Next(db, op))
  {
    StepKeepsRows(db, op);
    StepKeepsCalls(db, op);
  }

  predicate AllLegal(db: Db, ops: seq<Op>)
    decreases |ops|
  {
    ops == [] || (AllLegal(db, ops[..|ops| - 1]) && Legal(After(db, ops[..|ops| - 1]), ops[|ops| - 1]))
  }

  function After(db: Db, ops: seq<Op>): Db
    decreases |ops|
  {
    if ops == [] then db else Next(After(db, ops[..|ops| - 1]), ops[|ops| - 1])
  }

  const EMPTY := Db([], {}, map[], {}, map[], map[], map[])

  lemma {:induction false} RunKeepsInv(db: Db, ops: seq<Op>)
    requires Inv(db) && AllLegal(db, ops)
    ensures Inv(After(db, ops))
    decreases |ops|
  {
    if ops != [] {
      RunKeepsInv(db, ops[..|ops| - 1]);
      StepKeepsInv(After(db, ops[..|ops| - 1]), ops[|ops| - 1]);
    }
  }

  /**
    In every reachable state: approved means evaluated, an asset there has its book and document, and a parent is or
    was an older asset of the same book.
   */
  lemma {:induction false} EveryRunKeepsInv(ops: seq<Op>)
    requires AllLegal(EMPTY, ops)
    ensures Inv(After(EMPTY, ops))
  {
    RunKeepsInv(EMPTY, ops);
  }

  // ---------------------------------------------------------------------------
  // When the gate opens and shuts
  // ---------------------------------------------------------------------------

  predicate DescriptionApproved(db: Db, tenant: string, book: string) {
    var k := NewestOf(db.assets, tenant, book, "description");
    k.Some? && k.value < |db.assets| && db.assets[k.value].approval == "approved"
  }

  /** An approval of the newest description goes through. */
  predicate ApprovesNewest(db: Db, op: Op, tenant: string, book: string) {
    Grants(db, op).Some? && Grants(db, op) == NewestOf(db.assets, tenant, book, "description")
  }

  predicate HasDescription(payloads: seq<Payload>) {
    exists j | 0 <= j < |payloads| :: payloads[j].kind == "description"
  }

  /** The step inserts a newer description for the book, generated or revised. */
  predicate MakesDescription(db: Db, op: Op, tenant: string, book: string) {
    && op.InsertDrafts? && op.call in db.drafting && Insertable(db, db.drafting[op.call])
    && db.drafting[op.call].tenant == tenant && db.drafting[op.call].book == book && HasDescription(op.payloads)
  }

  /** The step deletes the book's rows. */
  predicate ClearsBook(db: Db, op: Op, tenant: string, book: string) {
    op == DeleteRows(tenant) && Owns(db, tenant, book)
  }

  /** Which description is the newest after a step. */
  lemma {:induction false} StepMovesNewest(db: Db, op: Op, tenant: string, book: string)
    requires Inv(db)
    ensures var k, k' := NewestOf(db.assets, tenant, book, "description"), NewestOf(Next(db, op).assets, tenant, book, "description");
            if MakesDescription(db, op, tenant, book)
            then k'.Some? && |db.assets| <= k'.value < |Next(db, op).assets|
                 && Next(db, op).assets[k'.value].approval == "draft"
            else k' == if ClearsBook(db, op, tenant, book) then None else k
  {
    var db' := Next(db, op);
    NewestIsNewest(db.assets, tenant, book, "description");
    NewestIsNewest(db'.assets, tenant, book, "description");
    if MakesDescription(db, op, tenant, book) {
      InsertedDescription(db, op, tenant, book);
    } else {
      NothingInserted(db, op, tenant, book);
      var k := if ClearsBook(db, op, tenant, book) then None else NewestOf(db.assets, tenant, book, "description");
      OldRowsOfKind(db, op, tenant, book);
      NewestIs(db'.assets, tenant, book, "description", k);
    }
  }

  lemma {:induction false} InsertedDescription(db: Db, op: Op, tenant: string, book: string)
    requires MakesDescription(db, op, tenant, book)
    ensures var k' := NewestOf(Next(db, op).assets, tenant, book, "description");
            k'.Some? && |db.assets| <= k'.value < |Next(db, op).assets|
            && Next(db, op).assets[k'.value].approval == "draft"
  {
    var after := Next(db, op).assets;
    PersistedExtends(db.assets, db.drafting[op.call], op.payloads);
    NewestIsNewest(after, tenant, book, "description");
    var j :| 0 <= j < |op.payloads| && op.payloads[j].kind == "description";
    assert IsOne(after[|db.assets| + j], tenant, book, "description");
  }

  lemma {:induction false} NothingInserted(db: Db, op: Op, tenant: string, book: string)
    requires !MakesDescription(db, op, tenant, book)
    ensures forall i | |db.assets| <= i < |Next(db, op).assets| :: !IsOne(Next(db, op).assets[i], tenant, book, "description")
  {
    forall i | |db.assets| <= i < |Next(db, op).assets| ensures !IsOne(Next(db, op).assets[i], tenant, book, "description") {
      StepAppends(db, op, i);
    }
  }

  lemma {:induction false} OldRowsOfKind(db: Db, op: Op, tenant: string, book: string)
    requires Inv(db)
    ensures |db.assets| <= |Next(db, op).assets|
    ensures forall i | 0 <= i < |db.assets| ::
              IsOne(Next(db, op).assets[i], tenant, book, "description")
              <==> IsOne(db.assets[i], tenant, book, "description") && !ClearsBook(db, op, tenant, book)
  {
    if op.InsertDrafts? && op.call in db.drafting {
      PersistedExtends(db.assets, db.drafting[op.call], op.payloads);
    }
    forall i | 0 <= i < |db.assets|
      ensures IsOne(Next(db, op).assets[i], tenant, book, "description")
         <==> IsOne(db.assets[i], tenant, book, "description") && !ClearsBook(db, op, tenant, book)
    {
      StepOnRow(db, op, i);
      assert WellFormed(db, i);
    }
  }

  /** The step stores this verdict on the newest description. */
  predicate JudgesNewest(db: Db, op: Op, tenant: string, book: string, block: bool) {
    && Verdict(db, op).Some? && Some(Verdict(db, op).value.0) == NewestOf(db.assets, tenant, book, "description")
    && (Verdict(db, op).value.1 == "block" <==> block)
  }

  predicate NewestBlocked(db: Db, tenant: string, book: string) {
    var k := NewestOf(db.assets, tenant, book, "description");
    k.Some? && k.value < |db.assets| && db.assets[k.value].governance == "block"
  }

  /** It approves the newest description while that is not blocked, or lifts the block of an already approved one. */
  predicate Opens(db: Db, op: Op, tenant: string, book: string) {
    || (ApprovesNewest(db, op, tenant, book) && !NewestBlocked(db, tenant, book))
    || (JudgesNewest(db, op, tenant, book, false) && DescriptionApproved(db, tenant, book) && NewestBlocked(db, tenant, book))
  }

  /** It inserts a newer description, rejects or blocks the newest one, or deletes the book's rows. */
  predicate Shuts(db: Db, op: Op, tenant: string, book: string) {
    || MakesDescription(db, op, tenant, book)
    || (Rejects(db, op).Some? && Rejects(db, op) == NewestOf(db.assets, tenant, book, "description"))
    || JudgesNewest(db, op, tenant, book, true)
    || ClearsBook(db, op, tenant, book)
  }

  /** The row in front of the gate after a step that neither replaces nor deletes it. */
  lemma {:induction false} GateRow(db: Db, op: Op, tenant: string, book: string, k: nat)
    requires NewestOf(db.assets, tenant, book, "description") == Some(k) && k < |db.assets| && k < |Next(db, op).assets|
    requires !MakesDescription(db, op, tenant, book) && !ClearsBook(db, op, tenant, book)
    ensures var a := Next(db, op).assets[k];
            (a.approval == "approved" && a.governance != "block") <==>
              || Opens(db, op, tenant, book)
              || (db.assets[k].approval == "approved" && db.assets[k].governance != "block" && !Shuts(db, op, tenant, book))
    ensures !(Opens(db, op, tenant, book) && Shuts(db, op, tenant, book))
  {
    StepOnRow(db, op, k);
  }

  lemma {:induction false} OnlyEvaluationsOpen(db: Db, op: Op, tenant: string, book: string)
    ensures Opens(db, op, tenant, book) ==>
              && NewestOf(db.assets, tenant, book, "description").Some?
              && !MakesDescription(db, op, tenant, book) && !ClearsBook(db, op, tenant, book)
  {
  }

  /** After a step the gate is open if and only if the step opened it, or it was open and the step did not shut it. */
  lemma {:induction false} GateStepExactly(db: Db, op: Op, tenant: string, book: string)
    requires Inv(db)
    ensures GateOpen(Next(db, op), tenant, book) <==>
              Opens(db, op, tenant, book) || (GateOpen(db, tenant, book) && !Shuts(db, op, tenant, book))
    ensures !(Opens(db, op, tenant, book) && Shuts(db, op, tenant, book))
  {
    StepMovesNewest(db, op, tenant, book);
    NewestIsListedFirst(db.assets, tenant, book, "description");
    var k := NewestOf(db.assets, tenant, book, "description");
    OnlyEvaluationsOpen(db, op, tenant, book);
    if !MakesDescription(db, op, tenant, book) && !ClearsBook(db, op, tenant, book) && k.Some? {
      NewestIsListedFirst(Next(db, op).assets, tenant, book, "description");
      GateRow(db, op, tenant, book, k.value);
    }
  }

  /** Until an approval of the newest description goes through, no step makes the newest description an approved one. */
  lemma {:induction false} OnlyApprovalApproves(db: Db, op: Op, tenant: string, book: string)
    requires Inv(db) && !DescriptionApproved(db, tenant, book) && !ApprovesNewest(db, op, tenant, book)
    ensures !DescriptionApproved(Next(db, op), tenant, book)
  {
    NewestIsNewest(db.assets, tenant, book, "description");
    StepMovesNewest(db, op, tenant, book);
    var k := NewestOf(db.assets, tenant, book, "description");
    if k.Some? { StepOnRow(db, op, k.value); }
  }

  predicate NeverApprovesNewest(db: Db, ops: seq<Op>, tenant: string, book: string)
    decreases |ops|
  {
    ops == [] ||
    (&& NeverApprovesNewest(db, ops[..|ops| - 1], tenant, book)
     && !ApprovesNewest(After(db, ops[..|ops| - 1]), ops[|ops| - 1], tenant, book))
  }

  /** Over any run: a newest description that is not approved keeps the gate shut until it is approved. */
  lemma {:induction false} GateStaysShut(db: Db, ops: seq<Op>, tenant: string, book: string)
    requires Inv(db) && AllLegal(db, ops)
    requires !DescriptionApproved(db, tenant, book) && NeverApprovesNewest(db, ops, tenant, book)
    ensures !DescriptionApproved(After(db, ops), tenant, book) && !GateOpen(After(db, ops), tenant, book)
    decreases |ops|
  {
    if ops != [] {
      var before := ops[..|ops| - 1];
      RunKeepsInv(db, before);
      GateStaysShut(db, before, tenant, book);
      OnlyApprovalApproves(After(db, before), ops[|ops| - 1], tenant, book);
    }
  }

  /** A newer description, generated or revised, shuts the gate. */
  lemma {:induction false} NewDescriptionShutsGate(db: Db, op: Op, tenant: string, book: string)
    requires Inv(db) && MakesDescription(db, op, tenant, book)
    ensures !DescriptionApproved(Next(db, op), tenant, book) && !GateOpen(Next(db, op), tenant, book)
  {
    StepMovesNewest(db, op, tenant, book);
  }

  /** Over any run after it, whatever else happens, the gate stays shut until the then newest description is approved. */
  lemma {:induction false} NewDescriptionKeepsGateShut(db: Db, op: Op, ops: seq<Op>, tenant: string, book: string)
    requires Inv(db) && Legal(db, op) && AllLegal(Next(db, op), ops) && MakesDescription(db, op, tenant, book)
    requires NeverApprovesNewest(Next(db, op), ops, tenant, book)
    ensures !GateOpen(After(Next(db, op), ops), tenant, book)
  {
    StepKeepsInv(db, op);
    NewDescriptionShutsGate(db, op, tenant, book);
    GateStaysShut(Next(db, op), ops, tenant, book);
  }

  // ---------------------------------------------------------------------------
  // A package: the gate is read in one session, the files are built later
  // ---------------------------------------------------------------------------

  /** Some step of the run shut the gate, and none after it opened it. */
  predicate ShutLast(db: Db, since: seq<Op>, tenant: string, book: string)
    decreases |since|
  {
    since != [] &&
    var before, op := since[..|since| - 1], since[|since| - 1];
    || Shuts(After(db, before), op, tenant, book)
    || (ShutLast(db, before, tenant, book) && !Opens(After(db, before), op, tenant, book))
  }

  /** A package checked behind an open gate is built behind an open one if and only if no step since shut it for good. */
  lemma {:induction false} GateAtBuildExactly(db: Db, since: seq<Op>, tenant: string, book: string)
    requires Inv(db) && AllLegal(db, since) && GateOpen(db, tenant, book)
    ensures GateOpen(After(db, since), tenant, book) <==> !ShutLast(db, since, tenant, book)
    decreases |since|
  {
    if since != [] {
      var before := since[..|since| - 1];
      RunKeepsInv(db, before);
      GateAtBuildExactly(db, before, tenant, book);
      GateStepExactly(After(db, before), since[|since| - 1], tenant, book);
    }
  }

  // ---------------------------------------------------------------------------
  // Rows and resets
  // ---------------------------------------------------------------------------

  /** An asset outlasts a run if and only if its tenant deletes nothing in it. */
  lemma {:induction false} RowStaysExactly(db: Db, since: seq<Op>, id: nat)
    requires Inv(db) && AllLegal(db, since) && id < |db.assets| && !db.assets[id].deleted
    ensures id < |After(db, since).assets| && SameRow(After(db, since).assets[id], db.assets[id])
    ensures !After(db, since).assets[id].deleted <==> DeleteRows(db.assets[id].tenant) !in since
    decreases |since|
  {
    if since != [] {
      var before, op := since[..|since| - 1], since[|since| - 1];
      RunKeepsInv(db, before);
      RowStaysExactly(db, before, id);
      assert since == before + [op];
      StepOnRow(After(db, before), op, id);
      assert WellFormed(After(db, before), id);
    }
  }

  /** A book or document id that a tenant's delete frees comes back only if it is the seed's. */
  lemma {:induction false} OnlySeedIdsReturn(db: Db, since: seq<Op>, tenant: string)
    requires AllLegal(db, since) && DeleteRows(tenant) in since
    ensures forall x | x in db.bookOwner && db.bookOwner[x] == tenant && x in After(db, since).books :: x == SEED_BOOK
    ensures forall x | x in db.documentOwner && db.documentOwner[x] == tenant && x in After(db, since).documents ::
              x == SEED_DOCUMENT
    decreases |since|
  {
    var before, op := since[..|since| - 1], since[|since| - 1];
    assert since == before + [op];
    RunGrows(db, before);
    if op != DeleteRows(tenant) {
      OnlySeedIdsReturn(db, before, tenant);
    }
  }

  lemma {:induction false} RunGrows(db: Db, ops: seq<Op>)
    requires AllLegal(db, ops)
    ensures Grown(db, After(db, ops))
    decreases |ops|
  {
    if ops != [] {
      RunGrows(db, ops[..|ops| - 1]);
      StepGrows(After(db, ops[..|ops| - 1]), ops[|ops| - 1]);
    }
  }

  /**
    A revision reads the asset, waits, and inserts. Whatever happens in between, what it inserts has a parent that is
    still there if and only if the tenant was not reset since the read; after a reset it can only be inserted at all
    under the seed's book and document.
   */
  lemma {:induction false} ParentPresentExactly(db: Db, start: Op, since: seq<Op>, payloads: seq<Payload>, i: nat)
    requires Inv(db) && start.StartRevise? && Legal(db, start) && Revisable(db, start.tenant, start.id)
    requires AllLegal(Next(db, start), since)
    requires var ready := After(Next(db, start), since);
             && start.call in ready.drafting && ready.drafting[start.call] == Next(db, start).drafting[start.call]
             && |ready.assets| <= i < |Next(ready, InsertDrafts(start.call, payloads)).assets|
    ensures var after := Next(After(Next(db, start), since), InsertDrafts(start.call, payloads));
            && after.assets[i].parent == Some(start.id) && !after.assets[i].deleted && start.id < |after.assets|
            && (!after.assets[start.id].deleted <==> DeleteRows(start.tenant) !in since)
            && (after.assets[start.id].deleted ==>
                  after.assets[i].book == SEED_BOOK && after.assets[i].document == Some(SEED_DOCUMENT))
  {
    var read := Next(db, start);
    var ready := After(read, since);
    StepKeepsInv(db, start);
    RowStaysExactly(read, since, start.id);
    StepAppends(ready, InsertDrafts(start.call, payloads), i);
    StepOnRow(ready, InsertDrafts(start.call, payloads), start.id);
    assert WellFormed(db, start.id);
    if DeleteRows(start.tenant) in since { OnlySeedIdsReturn(read, since, start.tenant); }
  }

  // ---------------------------------------------------------------------------
  // Approval in sessions
  // ---------------------------------------------------------------------------

  /** The last verdict stored on an asset in a run. */
  function LastVerdict(db: Db, ops: seq<Op>, id: nat): Option<string>
    decreases |ops|
  {
    if ops == [] then None
    else
      var v := Verdict(After(db, ops[..|ops| - 1]), ops[|ops| - 1]);
      if v.Some? && v.value.0 == id then Some(v.value.1) else LastVerdict(db, ops[..|ops| - 1], id)
  }

  lemma {:induction false} GovernanceIsLastVerdict(db: Db, ops: seq<Op>, id: nat)
    requires id < |db.assets|
    ensures var after := After(db, ops).assets;
            && id < |after|
            && after[id].governance == if LastVerdict(db, ops, id).Some? then LastVerdict(db, ops, id).value
                                       else db.assets[id].governance
    decreases |ops|
  {
    if ops != [] {
      GovernanceIsLastVerdict(db, ops[..|ops| - 1], id);
      StepOnRow(After(db, ops[..|ops| - 1]), ops[|ops| - 1], id);
    }
  }

  /**
    An approval past its check goes through if and only if the tenant was not reset meanwhile; it then leaves the
    asset approved, and blocked if and only if the last verdict stored on it in between was a block.
   */
  lemma {:induction false} GrantedExactly(db: Db, since: seq<Op>, call: nat, id: nat)
    requires Inv(db) && AllLegal(db, since) && id < |db.assets| && !db.assets[id].deleted
    requires db.assets[id].governance != "block"
    requires var ready := After(db, since); call in ready.approving && ready.approving[call] == Cleared(id)
    ensures Grants(After(db, since), GrantApproval(call)) == Some(id) <==> DeleteRows(db.assets[id].tenant) !in since
    ensures DeleteRows(db.assets[id].tenant) !in since ==>
              var after := Next(After(db, since), GrantApproval(call)).assets;
              && id < |after| && after[id].approval == "approved"
              && (after[id].governance == "block" <==> LastVerdict(db, since, id) == Some("block"))
    ensures DeleteRows(db.assets[id].tenant) in since ==>
              Next(After(db, since), GrantApproval(call)).assets == After(db, since).assets
  {
    RowStaysExactly(db, since, id);
    GovernanceIsLastVerdict(db, since, id);
    StepOnRow(After(db, since), GrantApproval(call), id);
  }

  /** An uninterrupted approval is one of the runs: it evaluates while pending and does not approve a block. */
  lemma {:induction false} AtomicApprovalIsARun(db: Db, call: nat, tenant: string, id: nat, verdict: string)
    requires call !in db.approving && verdict in LABELS
    ensures var steps := [CheckApproval(call, tenant, id), EvaluateForApproval(call, verdict), GrantApproval(call)];
            && AllLegal(db, steps)
            && After(db, steps) == if Found(db, tenant, id) then db.(assets := db.assets[id := Approved(db.assets[id], verdict)])
                                   else db
  {
    var a, b, c := CheckApproval(call, tenant, id), EvaluateForApproval(call, verdict), GrantApproval(call);
    var ab, abc := [a, b], [a, b, c];
    assert ab[..|ab| - 1] == [a] && abc[..|abc| - 1] == ab && [a][..0] == [];
    assert After(db, []) == db && AllLegal(db, []) && Legal(db, a);
    var alone := [a];
    assert alone[..|alone| - 1] == [];
    assert After(db, alone) == Next(db, a) && AllLegal(db, alone);
    assert After(db, ab) == Next(Next(db, a), b) && AllLegal(db, ab);
    if Found(db, tenant, id) {
      AtomicApproval(db, call, tenant, id, verdict);
    }
  }

  lemma {:induction false} AtomicApproval(db: Db, call: nat, tenant: string, id: nat, verdict: string)
    requires call !in db.approving && Found(db, tenant, id) && verdict in LABELS
    ensures Next(Next(Next(db, CheckApproval(call, tenant, id)), EvaluateForApproval(call, verdict)), GrantApproval(call))
         == db.(assets := db.assets[id := Approved(db.assets[id], verdict)])
  {
    var one := Next(db, CheckApproval(call, tenant, id));
    var two := Next(one, EvaluateForApproval(call, verdict));
    if db.assets[id].governance == "block" {
      assert db.assets[id := db.assets[id]] == db.assets;
    } else {
      assert two.approving - {call} == db.approving;
      assert db.approving - {call} == db.approving;
    }
  }

  /** A database with the seed's book and document. */
  function Shop(assets: seq<Asset>, drafting: map<nat, Draft>): Db {
    Db(assets, {SEED_BOOK}, map[SEED_BOOK := "t"], {SEED_DOCUMENT}, map[SEED_DOCUMENT := "t"], drafting, map[])
  }

  lemma {:induction false} SeedAsset() returns (ops: seq<Op>)
    ensures AllLegal(EMPTY, ops)
    ensures After(EMPTY, ops)
         == Shop([Fresh(0, Draft("t", SEED_BOOK, SEED_DOCUMENT, None, None), Payload("description", ""))], map[])
  {
    var d, p := Draft("t", SEED_BOOK, SEED_DOCUMENT, None, None), [Payload("description", "")];
    ops := Extend([], PlantSeed("t"));
    assert After(EMPTY, ops) == Shop([], map[]);
    ops := Extend(ops, StartGenerate(0, "t", SEED_BOOK, SEED_DOCUMENT));
    assert After(EMPTY, ops) == Shop([], map[0 := d]);
    ops := Extend(ops, InsertDrafts(0, p));
    PersistedExtends([], d, p);
    assert map[0 := d] - {0} == map[];
  }

  /** The orphan: revised from the seed book's only asset, with the tenant's reset between the read and the insert. */
  lemma {:induction false} ResetOrphansRevision() returns (ops: seq<Op>)
    ensures AllLegal(EMPTY, ops)
    ensures var assets := After(EMPTY, ops).assets;
            |assets| == 2 && !assets[1].deleted && assets[1].parent == Some(0) && assets[0].deleted
  {
    ops := SeedAsset();
    var a := After(EMPTY, ops).assets[0];
    var d := Revision(a, "");
    ops := Extend(ops, StartRevise(1, "t", 0, ""));
    assert After(EMPTY, ops) == Shop([a], map[1 := d]);
    ops := Extend(ops, DeleteRows("t"));
    ops := Extend(ops, PlantSeed("t"));
    assert After(EMPTY, ops) == Shop([a.(deleted := true)], map[1 := d]);
    PersistedExtends([a.(deleted := true)], d, [Payload("description", "")]);
    ops := Extend(ops, InsertDrafts(1, [Payload("description", "")]));
  }

  lemma {:induction false} Extend(ops: seq<Op>, op: Op) returns (more: seq<Op>)
    requires AllLegal(EMPTY, ops) && Legal(After(EMPTY, ops), op)
    ensures more == ops + [op] && AllLegal(EMPTY, more) && After(EMPTY, more) == Next(After(EMPTY, ops), op)
  {
    more := ops + [op];
    assert more[..|more| - 1] == ops;
  }
}
