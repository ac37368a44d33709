/**
  Resetting the demo: seven deletes in foreign-key order, then an insert-if-missing seed. The
  tables keep their keys, tenants and one column standing for the rest of each row; a customer
  has one more, for the slug and vertical that no seed overwrites. Here a reset runs
  uninterrupted; ResetRuns lets its sessions interleave with everything else.
 */
module ResetDemo {
  import opened Wrappers

  type Id = string

  datatype Customer = Customer(tenant: string, data: string, identity: string)
  datatype Mind = Mind(tenant: string, author: Id, data: string)
  datatype Book = Book(tenant: string, author: Id, data: string)
  datatype Edition = Edition(tenant: string, book: Id, data: string)
  datatype Document = Document(tenant: string, book: Id, data: string)
  datatype Asset = Asset(tenant: string, book: Id, document: Option<Id>, data: string)
  datatype Campaign = Campaign(tenant: string, book: Id, data: string)
  datatype Task = Task(tenant: string, campaign: Id, asset: Option<Id>, data: string)

  datatype Db = Db(
    customers: map<Id, Customer>,
    minds: map<Id, Mind>,
    books: map<Id, Book>,
    editions: map<Id, Edition>,
    documents: map<Id, Document>,
    assets: map<Id, Asset>,
    campaigns: map<Id, Campaign>,
    tasks: map<Id, Task>)

  const SEED_AUTHOR := "seed-author-mara"
  const SEED_BOOK := "seed-book-manuscript-to-launch"
  const SEED_PAPERBACK := "seed-edition-paperback"
  const SEED_EBOOK := "seed-edition-ebook"
  const SEED_DOCUMENT := "seed-document-excerpt"
  const SEED_MIND := "seed-mind-mara"

  const SEED_IDS := {SEED_AUTHOR, SEED_BOOK, SEED_PAPERBACK, SEED_EBOOK, SEED_DOCUMENT, SEED_MIND}

  const SEED_DATA := "seed"
  const SEED_IDENTITY := "mara-ellison"

  const EMPTY := Db(map[], map[], map[], map[], map[], map[], map[], map[])

  // ---------------------------------------------------------------------------
  // Constraints and invariants
  // ---------------------------------------------------------------------------

  predicate ForeignKeys(db: Db) {
    && MindKeys(db.minds, db.customers)
    && BookKeys(db.books, db.customers)
    && EditionKeys(db.editions, db.books)
    && DocumentKeys(db.documents, db.books)
    && AssetKeys(db.assets, db.books, db.documents)
    && CampaignKeys(db.campaigns, db.books)
    && TaskKeys(db.tasks, db.campaigns, db.assets)
  }

  predicate MindKeys(minds: map<Id, Mind>, customers: map<Id, Customer>) {
    forall x | x in minds :: minds[x].author in customers
  }

  predicate BookKeys(books: map<Id, Book>, customers: map<Id, Customer>) {
    forall x | x in books :: books[x].author in customers
  }

  predicate EditionKeys(editions: map<Id, Edition>, books: map<Id, Book>) {
    forall x | x in editions :: editions[x].book in books
  }

  predicate DocumentKeys(documents: map<Id, Document>, books: map<Id, Book>) {
    forall x | x in documents :: documents[x].book in books
  }

  predicate AssetKeys(assets: map<Id, Asset>, books: map<Id, Book>, documents: map<Id, Document>) {
    && (forall x | x in assets :: assets[x].book in books)
    && (forall x | x in assets && assets[x].document.Some? :: assets[x].document.value in documents)
  }

  predicate CampaignKeys(campaigns: map<Id, Campaign>, books: map<Id, Book>) {
    forall x | x in campaigns :: campaigns[x].book in books
  }

  predicate TaskKeys(tasks: map<Id, Task>, campaigns: map<Id, Campaign>, assets: map<Id, Asset>) {
    && (forall x | x in tasks :: tasks[x].campaign in campaigns)
    && (forall x | x in tasks && tasks[x].asset.Some? :: tasks[x].asset.value in assets)
  }

  /** Rows share their parent's tenant; a task's asset belongs to its campaign's book. */
  predicate TenantsAgree(db: Db) {
    && MindTenants(db.minds, db.customers)
    && BookTenants(db.books, db.customers)
    && EditionTenants(db.editions, db.books)
    && DocumentTenants(db.documents, db.books)
    && AssetTenants(db.assets, db.books, db.documents)
    && CampaignTenants(db.campaigns, db.books)
    && TaskTenants(db.tasks, db.campaigns, db.assets)
  }

  predicate MindTenants(minds: map<Id, Mind>, customers: map<Id, Customer>) {
    forall x | x in minds && minds[x].author in customers :: customers[minds[x].author].tenant == minds[x].tenant
  }

  predicate BookTenants(books: map<Id, Book>, customers: map<Id, Customer>) {
    forall x | x in books && books[x].author in customers :: customers[books[x].author].tenant == books[x].tenant
  }

  predicate EditionTenants(editions: map<Id, Edition>, books: map<Id, Book>) {
    forall x | x in editions && editions[x].book in books :: books[editions[x].book].tenant == editions[x].tenant
  }

  predicate DocumentTenants(documents: map<Id, Document>, books: map<Id, Book>) {
    forall x | x in documents && documents[x].book in books :: books[documents[x].book].tenant == documents[x].tenant
  }

  predicate AssetTenants(assets: map<Id, Asset>, books: map<Id, Book>, documents: map<Id, Document>) {
    && (forall x | x in assets && assets[x].book in books :: books[assets[x].book].tenant == assets[x].tenant)
    && (forall x | x in assets && assets[x].document.Some? && assets[x].document.value in documents ::
          documents[assets[x].document.value].tenant == assets[x].tenant)
  }

  predicate CampaignTenants(campaigns: map<Id, Campaign>, books: map<Id, Book>) {
    forall x | x in campaigns && campaigns[x].book in books :: books[campaigns[x].book].tenant == campaigns[x].tenant
  }

  predicate TaskTenants(tasks: map<Id, Task>, campaigns: map<Id, Campaign>, assets: map<Id, Asset>) {
    && (forall x | x in tasks && tasks[x].campaign in campaigns :: campaigns[tasks[x].campaign].tenant == tasks[x].tenant)
    && (forall x | x in tasks && tasks[x].campaign in campaigns && tasks[x].asset.Some? && tasks[x].asset.value in assets ::
          assets[tasks[x].asset.value].book == campaigns[tasks[x].campaign].book)
  }

  /** The unique constraint on minds.author_id. */
  predicate OneMindPerAuthor(minds: map<Id, Mind>) {
    forall x, y | x in minds && y in minds && minds[x].author == minds[y].author :: x == y
  }

  /** What is stored under a fixed id was put there by the seed. */
  predicate SeedRowsLinked(db: Db) {
    && (SEED_MIND in db.minds ==> db.minds[SEED_MIND].author == SEED_AUTHOR)
    && (SEED_BOOK in db.books ==> db.books[SEED_BOOK].author == SEED_AUTHOR)
    && (SEED_PAPERBACK in db.editions ==> db.editions[SEED_PAPERBACK].book == SEED_BOOK)
    && (SEED_EBOOK in db.editions ==> db.editions[SEED_EBOOK].book == SEED_BOOK)
    && (SEED_DOCUMENT in db.documents ==> db.documents[SEED_DOCUMENT].book == SEED_BOOK)
  }

  predicate Inv(db: Db) {
    ForeignKeys(db) && TenantsAgree(db) && OneMindPerAuthor(db.minds) && SeedRowsLinked(db)
  }

  /** The seed author has a mind that the seed did not put there. */
  predicate StrayMind(db: Db) {
    SEED_MIND !in db.minds && exists x | x in db.minds :: db.minds[x].author == SEED_AUTHOR
  }

  // ---------------------------------------------------------------------------
  // The creating operations
  // ---------------------------------------------------------------------------

  datatype Op =
    | CreateAuthor(id: Id, author: Customer)
    | BindMind(id: Id, mind: Mind)
    | CreateBook(id: Id, book: Book)
    | CreateEdition(id: Id, edition: Edition)
    | SaveDocument(id: Id, document: Document)
    | PersistAsset(id: Id, asset: Asset)
    | CreateCampaign(id: Id, campaign: Campaign, tasks: map<Id, Task>)

  /** Random ids are fresh, and none of the fixed ones. */
  predicate FreshId<T>(id: Id, rows: map<Id, T>) {
    id !in rows && id !in SEED_IDS
  }

  /** The lookups each operation makes before it inserts. */
  predicate Accepted(db: Db, op: Op) {
    match op
    case CreateAuthor(id, _) => FreshId(id, db.customers)
    case BindMind(id, mind) =>
      && FreshId(id, db.minds) && mind.author in db.customers && db.customers[mind.author].tenant == mind.tenant
      && forall x | x in db.minds :: db.minds[x].author != mind.author
    case CreateBook(id, book) =>
      FreshId(id, db.books) && book.author in db.customers && db.customers[book.author].tenant == book.tenant
    case CreateEdition(id, edition) =>
      FreshId(id, db.editions) && edition.book in db.books && db.books[edition.book].tenant == edition.tenant
    case SaveDocument(id, document) =>
      FreshId(id, db.documents) && document.book in db.books && db.books[document.book].tenant == document.tenant
    case PersistAsset(id, asset) =>
      && FreshId(id, db.assets) && asset.book in db.books && db.books[asset.book].tenant == asset.tenant
      && asset.document.Some? && asset.document.value in db.documents
      && db.documents[asset.document.value].tenant == asset.tenant
    case CreateCampaign(id, campaign, tasks) =>
      && FreshId(id, db.campaigns) && campaign.book in db.books && db.books[campaign.book].tenant == campaign.tenant
      && forall x | x in tasks ::
           && FreshId(x, db.tasks) && tasks[x].tenant == campaign.tenant && tasks[x].campaign == id
           && (tasks[x].asset.Some? ==>
                 tasks[x].asset.value in db.assets && db.assets[tasks[x].asset.value].book == campaign.book)
  }

  function Created(db: Db, op: Op): Db {
    match op
    case CreateAuthor(id, author) => db.(customers := db.customers[id := author])
    case BindMind(id, mind) => db.(minds := db.minds[id := mind])
    case CreateBook(id, book) => db.(books := db.books[id := book])
    case CreateEdition(id, edition) => db.(editions := db.editions[id := edition])
    case SaveDocument(id, document) => db.(documents := db.documents[id := document])
    case PersistAsset(id, asset) => db.(assets := db.assets[id := asset])
    case CreateCampaign(id, campaign, tasks) =>
      db.(campaigns := db.campaigns[id := campaign], tasks := db.tasks + tasks)
  }

  lemma {:induction false} CreatingKeepsKeys(db: Db, op: Op)
    requires ForeignKeys(db) && Accepted(db, op)
    ensures ForeignKeys(Created(db, op))
  {
  }

  lemma {:induction false} CreatingKeepsTenants(db: Db, op: Op)
    requires ForeignKeys(db) && TenantsAgree(db) && Accepted(db, op) && !op.CreateCampaign?
    ensures TenantsAgree(Created(db, op))
  {
  }

  lemma {:induction false} CampaignKeepsTenants(db: Db, id: Id, campaign: Campaign, tasks: map<Id, Task>)
    requires ForeignKeys(db) && TenantsAgree(db) && Accepted(db, CreateCampaign(id, campaign, tasks))
    ensures TenantsAgree(Created(db, CreateCampaign(id, campaign, tasks)))
  {
    var campaigns' := db.campaigns[id := campaign];
    forall x | x in db.tasks + tasks
      ensures campaigns'[(db.tasks + tasks)[x].campaign].tenant == (db.tasks + tasks)[x].tenant
    {
    }
  }

  /** The invariant the reset relies on is kept by every operation that creates rows. */
  lemma {:induction false} CreatingKeepsInv(db: Db, op: Op)
    requires Inv(db) && Accepted(db, op)
    ensures Inv(Created(db, op))
  {
    CreatingKeepsKeys(db, op);
    if op.CreateCampaign? {
      CampaignKeepsTenants(db, op.id, op.campaign, op.tasks);
    } else {
      CreatingKeepsTenants(db, op);
    }
  }

  // ---------------------------------------------------------------------------
  // The deletes
  // ---------------------------------------------------------------------------

  function BooksOf(db: Db, tenant: string): set<Id> {
    set x | x in db.books && db.books[x].tenant == tenant
  }

  function CampaignsOf(db: Db, books: set<Id>): set<Id> {
    set x | x in db.campaigns && db.campaigns[x].book in books
  }

  function DeleteTasks(t: map<Id, Task>, campaigns: set<Id>): map<Id, Task> {
    map x | x in t && t[x].campaign !in campaigns :: t[x]
  }

  function DeleteCampaigns(t: map<Id, Campaign>, books: set<Id>): map<Id, Campaign> {
    map x | x in t && t[x].book !in books :: t[x]
  }

  function DeleteAssets(t: map<Id, Asset>, books: set<Id>): map<Id, Asset> {
    map x | x in t && t[x].book !in books :: t[x]
  }

  function DeleteDocuments(t: map<Id, Document>, books: set<Id>): map<Id, Document> {
    map x | x in t && t[x].book !in books :: t[x]
  }

  function DeleteEditions(t: map<Id, Edition>, books: set<Id>): map<Id, Edition> {
    map x | x in t && t[x].book !in books :: t[x]
  }

  function DeleteBooks(t: map<Id, Book>, books: set<Id>): map<Id, Book> {
    map x | x in t && x !in books :: t[x]
  }

  function DeleteMinds(t: map<Id, Mind>, tenant: string): map<Id, Mind> {
    map x | x in t && !(t[x].tenant == tenant && t[x].author == SEED_AUTHOR) :: t[x]
  }

  /** The tables after the first k delete statements. */
  function Stage(db: Db, tenant: string, k: nat): Db {
    var books := BooksOf(db, tenant);
    db.(tasks := if k >= 1 then DeleteTasks(db.tasks, CampaignsOf(db, books)) else db.tasks,
        campaigns := if k >= 2 then DeleteCampaigns(db.campaigns, books) else db.campaigns,
        assets := if k >= 3 then DeleteAssets(db.assets, books) else db.assets,
        documents := if k >= 4 then DeleteDocuments(db.documents, books) else db.documents,
        editions := if k >= 5 then DeleteEditions(db.editions, books) else db.editions,
        books := if k >= 6 then DeleteBooks(db.books, books) else db.books,
        minds := if k >= 7 then DeleteMinds(db.minds, tenant) else db.minds)
  }

  lemma {:induction false} TasksOutlastNothing(db: Db, tenant: string, k: nat)
    requires Inv(db) && k <= 7
    ensures var s := Stage(db, tenant, k); TaskKeys(s.tasks, s.campaigns, s.assets)
  {
    var s := Stage(db, tenant, k);
    forall x | x in s.tasks && s.tasks[x].asset.Some? ensures s.tasks[x].asset.value in s.assets {
      assert db.assets[db.tasks[x].asset.value].book == db.campaigns[db.tasks[x].campaign].book;
    }
  }

  lemma {:induction false} AssetsOutlastNothing(db: Db, tenant: string, k: nat)
    requires Inv(db) && k <= 7
    ensures var s := Stage(db, tenant, k); AssetKeys(s.assets, s.books, s.documents)
  {
    var s := Stage(db, tenant, k);
    forall x | x in s.assets && s.assets[x].document.Some? ensures s.assets[x].document.value in s.documents {
      assert db.documents[db.assets[x].document.value].tenant == db.assets[x].tenant;
    }
  }

  /** After every single delete statement no reference dangles. */
  lemma {:induction false} EveryDeleteKeepsKeys(db: Db, tenant: string, k: nat)
    requires Inv(db) && k <= 7
    ensures ForeignKeys(Stage(db, tenant, k))
  {
    TasksOutlastNothing(db, tenant, k);
    AssetsOutlastNothing(db, tenant, k);
  }

  /** Everything deleted belongs to the tenant. */
  lemma {:induction false} OnlyOwnRowsDeleted(db: Db, tenant: string, k: nat)
    requires Inv(db) && k <= 7
    ensures var s := Stage(db, tenant, k);
            && s.customers == db.customers
            && (forall x | x in db.tasks && x !in s.tasks :: db.tasks[x].tenant == tenant)
            && (forall x | x in db.campaigns && x !in s.campaigns :: db.campaigns[x].tenant == tenant)
            && (forall x | x in db.assets && x !in s.assets :: db.assets[x].tenant == tenant)
            && (forall x | x in db.documents && x !in s.documents :: db.documents[x].tenant == tenant)
            && (forall x | x in db.editions && x !in s.editions :: db.editions[x].tenant == tenant)
            && (forall x | x in db.books && x !in s.books :: db.books[x].tenant == tenant)
            && (forall x | x in db.minds && x !in s.minds :: db.minds[x].tenant == tenant)
  {
  }

  lemma {:induction false} DeletesKeepTenants(db: Db, tenant: string)
    requires Inv(db)
    ensures TenantsAgree(Stage(db, tenant, 7))
  {
  }

  lemma {:induction false} DeletesKeepInv(db: Db, tenant: string)
    requires Inv(db)
    ensures Inv(Stage(db, tenant, 7))
  {
    EveryDeleteKeepsKeys(db, tenant, 7);
    DeletesKeepTenants(db, tenant);
  }

  /** After the last delete the tenant has no books, and nothing that hangs off one. */
  lemma {:induction false} PurgedOfTenant(db: Db, tenant: string)
    requires Inv(db)
    ensures var s := Stage(db, tenant, 7);
            && Inv(s)
            && (forall x | x in s.tasks :: s.tasks[x].tenant != tenant)
            && (forall x | x in s.campaigns :: s.campaigns[x].tenant != tenant)
            && (forall x | x in s.assets :: s.assets[x].tenant != tenant)
            && (forall x | x in s.documents :: s.documents[x].tenant != tenant)
            && (forall x | x in s.editions :: s.editions[x].tenant != tenant)
            && (forall x | x in s.books :: s.books[x].tenant != tenant)
  {
    DeletesKeepInv(db, tenant);
    var s := Stage(db, tenant, 7);
    forall x | x in s.books ensures s.books[x].tenant != tenant {
    }
    forall x | x in s.campaigns ensures s.campaigns[x].tenant != tenant {
      assert s.books[s.campaigns[x].book].tenant == s.campaigns[x].tenant;
    }
    forall x | x in s.tasks ensures s.tasks[x].tenant != tenant {
      assert s.campaigns[s.tasks[x].campaign].tenant == s.tasks[x].tenant;
    }
  }

  // ---------------------------------------------------------------------------
  // The seed
  // ---------------------------------------------------------------------------

  predicate AuthorTaken(db: Db, tenant: string) {
    SEED_AUTHOR in db.customers && db.customers[SEED_AUTHOR].tenant != tenant
  }

  /** Another tenant has a row under one of the fixed ids of the seed. */
  predicate HeldByOther(db: Db, tenant: string) {
    || AuthorTaken(db, tenant)
    || (SEED_BOOK in db.books && db.books[SEED_BOOK].tenant != tenant)
    || (SEED_PAPERBACK in db.editions && db.editions[SEED_PAPERBACK].tenant != tenant)
    || (SEED_EBOOK in db.editions && db.editions[SEED_EBOOK].tenant != tenant)
    || (SEED_DOCUMENT in db.documents && db.documents[SEED_DOCUMENT].tenant != tenant)
    || (SEED_MIND in db.minds && db.minds[SEED_MIND].tenant != tenant)
  }

  /** The fixed ids go together: another tenant holds one exactly when it owns the author. */
  lemma {:induction false} HeldExactlyWithAuthor(db: Db, tenant: string)
    requires Inv(db)
    ensures HeldByOther(db, tenant) <==> AuthorTaken(db, tenant)
  {
    if SEED_BOOK in db.books {
      assert db.customers[db.books[SEED_BOOK].author].tenant == db.books[SEED_BOOK].tenant;
    }
  }

  function SeedMind(tenant: string): Mind {
    Mind(tenant, SEED_AUTHOR, SEED_DATA)
  }

  function IfMissing<T>(t: map<Id, T>, id: Id, row: T): map<Id, T> {
    if id in t then t else t[id := row]
  }

  function AuthorRow(customers: map<Id, Customer>, tenant: string, reuse: bool): Customer {
    if SEED_AUTHOR !in customers then Customer(tenant, SEED_DATA, SEED_IDENTITY)
    else if reuse then customers[SEED_AUTHOR].(data := SEED_DATA)
    else customers[SEED_AUTHOR]
  }

  /** The first session: the author is created, or found and updated if asked for. */
  function Authored(db: Db, tenant: string, reuse: bool): Db {
    db.(customers := db.customers[SEED_AUTHOR := AuthorRow(db.customers, tenant, reuse)])
  }

  /** The rows the second session adds; the primary-key lookups do not look at the tenant. */
  function Planted(db: Db, tenant: string): Db {
    db.(minds := IfMissing(db.minds, SEED_MIND, SeedMind(tenant)),
        books := IfMissing(db.books, SEED_BOOK, Book(tenant, SEED_AUTHOR, SEED_DATA)),
        editions := IfMissing(IfMissing(db.editions, SEED_PAPERBACK, Edition(tenant, SEED_BOOK, "paperback")),
                              SEED_EBOOK, Edition(tenant, SEED_BOOK, "ebook")),
        documents := IfMissing(db.documents, SEED_DOCUMENT, Document(tenant, SEED_BOOK, SEED_DATA)))
  }

  function SeedRows(db: Db, tenant: string, reuse: bool): Db {
    Planted(Authored(db, tenant, reuse), tenant)
  }

  /**
    What seed_creatortrust leaves, and whether it raises: inserting an author under the id of another tenant's does,
    and so does a second mind for the author. Each session commits on its own.
   */
  function Seeded(db: Db, tenant: string, reuse: bool): (Db, bool) {
    if AuthorTaken(db, tenant) then (db, false)
    else if OneMindPerAuthor(SeedRows(db, tenant, reuse).minds) then (SeedRows(db, tenant, reuse), true)
    else (Authored(db, tenant, reuse), false)
  }

  /**
    What a seed may do to the customers: it creates the author if there is none, and writes over its own tenant's
    only if told to reuse it. Every other row stays as it is, and so do the author's tenant and identity.
   */
  ghost predicate AuthorSeeded(before: map<Id, Customer>, after: map<Id, Customer>, tenant: string, reuse: bool) {
    && after.Keys == before.Keys + {SEED_AUTHOR}
    && (SEED_AUTHOR !in before ==> after[SEED_AUTHOR] == Customer(tenant, SEED_DATA, SEED_IDENTITY))
    && (forall x | x in before && !(reuse && x == SEED_AUTHOR && before[x].tenant == tenant) :: after[x] == before[x])
    && (reuse && SEED_AUTHOR in before && before[SEED_AUTHOR].tenant == tenant ==>
          after[SEED_AUTHOR] == Customer(tenant, SEED_DATA, before[SEED_AUTHOR].identity))
  }

  /** Every row there before is as it was, and of the fixed ids exactly the free ones are new. */
  ghost predicate Filled<T>(before: map<Id, T>, after: map<Id, T>, rows: map<Id, T>) {
    && after.Keys == before.Keys + rows.Keys
    && forall x | x in after :: after[x] == if x in before then before[x] else rows[x]
  }

  /** The seed fills in what is missing of the book, its editions, its document and the mind. */
  ghost predicate SeedFilled(before: Db, after: Db, tenant: string) {
    && Filled(before.minds, after.minds, map[SEED_MIND := Mind(tenant, SEED_AUTHOR, SEED_DATA)])
    && Filled(before.books, after.books, map[SEED_BOOK := Book(tenant, SEED_AUTHOR, SEED_DATA)])
    && Filled(before.editions, after.editions, map[SEED_PAPERBACK := Edition(tenant, SEED_BOOK, "paperback"),
                                                  SEED_EBOOK := Edition(tenant, SEED_BOOK, "ebook")])
    && Filled(before.documents, after.documents, map[SEED_DOCUMENT := Document(tenant, SEED_BOOK, SEED_DATA)])
    && after.assets == before.assets && after.campaigns == before.campaigns && after.tasks == before.tasks
  }

  /** In particular a seed without reuse changes no customer row that is there. */
  lemma {:induction false} SeedWritesExactly(db: Db, tenant: string, reuse: bool)
    ensures var (after, ok) := Seeded(db, tenant, reuse);
            && AuthorSeeded(db.customers, after.customers, tenant, reuse)
            && (ok ==> SeedFilled(db, after, tenant))
            && (!ok ==> after.(customers := db.customers) == db)
  {
    if !AuthorTaken(db, tenant) {
      AuthorIsSeeded(db, tenant, reuse);
      var authored := Authored(db, tenant, reuse);
      PlantedFills(authored, tenant);
      assert SeedFilled(db, Planted(authored, tenant), tenant);
    }
  }

  lemma {:induction false} AuthorIsSeeded(db: Db, tenant: string, reuse: bool)
    requires !AuthorTaken(db, tenant)
    ensures AuthorSeeded(db.customers, Authored(db, tenant, reuse).customers, tenant, reuse)
  {
  }

  lemma {:induction false} PlantedFills(db: Db, tenant: string)
    ensures SeedFilled(db, Planted(db, tenant), tenant)
  {
    var paperback, ebook := Edition(tenant, SEED_BOOK, "paperback"), Edition(tenant, SEED_BOOK, "ebook");
    OneFilled(db.minds, SEED_MIND, SeedMind(tenant));
    OneFilled(db.books, SEED_BOOK, Book(tenant, SEED_AUTHOR, SEED_DATA));
    assert SEED_PAPERBACK != SEED_EBOOK;
    TwoFilled(db.editions, SEED_PAPERBACK, paperback, SEED_EBOOK, ebook);
    OneFilled(db.documents, SEED_DOCUMENT, Document(tenant, SEED_BOOK, SEED_DATA));
  }

  lemma {:induction false} OneFilled<T>(t: map<Id, T>, id: Id, row: T)
    ensures Filled(t, IfMissing(t, id, row), map[id := row])
  {
  }

  lemma {:induction false} TwoFilled<T>(t: map<Id, T>, id: Id, row: T, other: Id, next: T)
    requires id != other
    ensures Filled(t, IfMissing(IfMissing(t, id, row), other, next), map[id := row, other := next])
  {
  }

  /** reset_demo: the deletes, then the seed, which reuses the author it finds. */
  function Reset(db: Db, tenant: string): (Db, bool) {
    Seeded(Stage(db, tenant, 7), tenant, true)
  }

  /** Exactly the seed rows, as far as this tenant's books, what hangs off them, and the author's mind go. */
  predicate ExactlySeeded(db: Db, tenant: string) {
    && SEED_AUTHOR in db.customers && db.customers[SEED_AUTHOR].tenant == tenant && db.customers[SEED_AUTHOR].data == SEED_DATA
    && (forall x | x in db.minds :: db.minds[x].author == SEED_AUTHOR <==> x == SEED_MIND)
    && SEED_MIND in db.minds && db.minds[SEED_MIND] == SeedMind(tenant)
    && (forall x | x in db.books :: db.books[x].tenant == tenant <==> x == SEED_BOOK)
    && SEED_BOOK in db.books && db.books[SEED_BOOK] == Book(tenant, SEED_AUTHOR, SEED_DATA)
    && (forall x | x in db.editions :: db.editions[x].tenant == tenant <==> x in {SEED_PAPERBACK, SEED_EBOOK})
    && SEED_PAPERBACK in db.editions && db.editions[SEED_PAPERBACK] == Edition(tenant, SEED_BOOK, "paperback")
    && SEED_EBOOK in db.editions && db.editions[SEED_EBOOK] == Edition(tenant, SEED_BOOK, "ebook")
    && (forall x | x in db.documents :: db.documents[x].tenant == tenant <==> x == SEED_DOCUMENT)
    && SEED_DOCUMENT in db.documents && db.documents[SEED_DOCUMENT] == Document(tenant, SEED_BOOK, SEED_DATA)
    && (forall x | x in db.assets :: db.assets[x].tenant != tenant)
    && (forall x | x in db.campaigns :: db.campaigns[x].tenant != tenant)
    && (forall x | x in db.tasks :: db.tasks[x].tenant != tenant)
  }

  /** What the deletes leave for a tenant that may seed: no row of its own, and every fixed id but the author's free. */
  predicate Cleared(s: Db, tenant: string) {
    && (forall x | x in s.minds :: s.minds[x].author != SEED_AUTHOR)
    && (forall x | x in s.books :: s.books[x].tenant != tenant)
    && (forall x | x in s.editions :: s.editions[x].tenant != tenant)
    && (forall x | x in s.documents :: s.documents[x].tenant != tenant)
    && (forall x | x in s.assets :: s.assets[x].tenant != tenant)
    && (forall x | x in s.campaigns :: s.campaigns[x].tenant != tenant)
    && (forall x | x in s.tasks :: s.tasks[x].tenant != tenant)
    && SEED_MIND !in s.minds && SEED_BOOK !in s.books && SEED_PAPERBACK !in s.editions && SEED_EBOOK !in s.editions
    && SEED_DOCUMENT !in s.documents
  }

  lemma {:induction false} DeletesClear(db: Db, tenant: string)
    requires Inv(db) && !AuthorTaken(db, tenant)
    ensures Cleared(Stage(db, tenant, 7), tenant)
  {
    PurgedOfTenant(db, tenant);
    HeldExactlyWithAuthor(db, tenant);
    var s := Stage(db, tenant, 7);
    forall x | x in s.minds ensures s.minds[x].author != SEED_AUTHOR {
      assert db.customers[db.minds[x].author].tenant == db.minds[x].tenant;
    }
    SeedIdsFree(db, s, tenant);
  }

  lemma {:induction false} SeedIdsFree(db: Db, s: Db, tenant: string)
    requires s == Stage(db, tenant, 7) && !HeldByOther(db, tenant) && SeedRowsLinked(db)
    requires forall x | x in s.minds :: s.minds[x].author != SEED_AUTHOR
    requires forall x | x in s.books :: s.books[x].tenant != tenant
    requires forall x | x in s.editions :: s.editions[x].tenant != tenant
    requires forall x | x in s.documents :: s.documents[x].tenant != tenant
    ensures SEED_MIND !in s.minds && SEED_BOOK !in s.books && SEED_PAPERBACK !in s.editions
    ensures SEED_EBOOK !in s.editions && SEED_DOCUMENT !in s.documents
  {
  }

  lemma {:induction false} ClearedIsSeededExactly(s: Db, tenant: string)
    requires Cleared(s, tenant) && SEED_AUTHOR in s.customers
    requires s.customers[SEED_AUTHOR].tenant == tenant && s.customers[SEED_AUTHOR].data == SEED_DATA
    ensures ExactlySeeded(Planted(s, tenant), tenant)
  {
    assert SEED_PAPERBACK != SEED_EBOOK;
  }

  lemma {:induction false} OnlyMindFits(minds: map<Id, Mind>, tenant: string)
    requires OneMindPerAuthor(minds) && (SEED_MIND !in minds ==> forall x | x in minds :: minds[x].author != SEED_AUTHOR)
    ensures OneMindPerAuthor(IfMissing(minds, SEED_MIND, SeedMind(tenant)))
  {
  }

  /**
    A reset succeeds if and only if no other tenant owns the seed author, which is the only way another tenant can
    hold a seed id, and then leaves exactly the seed rows.
   */
  lemma {:induction false} ResetSeedsExactly(db: Db, tenant: string)
    requires Inv(db)
    ensures Reset(db, tenant).1 <==> !AuthorTaken(db, tenant)
    ensures Reset(db, tenant).1 <==> !HeldByOther(db, tenant)
    ensures Reset(db, tenant).1 <==> ExactlySeeded(Reset(db, tenant).0, tenant)
    ensures !Reset(db, tenant).1 ==> Reset(db, tenant).0 == Stage(db, tenant, 7)
  {
    HeldExactlyWithAuthor(db, tenant);
    PurgedOfTenant(db, tenant);
    var s := Stage(db, tenant, 7);
    if !AuthorTaken(db, tenant) {
      DeletesClear(db, tenant);
      OnlyMindFits(s.minds, tenant);
      ClearedIsSeededExactly(Authored(s, tenant, true), tenant);
    }
  }

  /** Customers may change anything but their tenant, and new ones may appear. */
  lemma {:induction false} CustomersMayGrow(db: Db, customers: map<Id, Customer>)
    requires Inv(db) && forall x | x in db.customers :: x in customers && customers[x].tenant == db.customers[x].tenant
    ensures Inv(db.(customers := customers))
  {
    assert MindTenants(db.minds, customers) && BookTenants(db.books, customers);
  }

  lemma {:induction false} PlantedKeepsKeys(db: Db, tenant: string)
    requires ForeignKeys(db) && SEED_AUTHOR in db.customers
    ensures ForeignKeys(Planted(db, tenant))
  {
  }

  lemma {:induction false} PlantedBooks(db: Db, tenant: string)
    requires Inv(db) && SEED_AUTHOR in db.customers && db.customers[SEED_AUTHOR].tenant == tenant
    ensures var p := Planted(db, tenant);
            && BookTenants(p.books, p.customers) && MindTenants(p.minds, p.customers)
            && p.books[SEED_BOOK].tenant == tenant
            && forall x | x in db.books :: x in p.books && p.books[x] == db.books[x]
  {
  }

  lemma {:induction false} PlantedKeepsTenants(db: Db, tenant: string)
    requires Inv(db) && SEED_AUTHOR in db.customers && db.customers[SEED_AUTHOR].tenant == tenant
    ensures TenantsAgree(Planted(db, tenant))
  {
    PlantedBooks(db, tenant);
    var p := Planted(db, tenant);
    assert EditionTenants(p.editions, p.books);
    assert DocumentTenants(p.documents, p.books);
    assert AssetTenants(p.assets, p.books, p.documents);
    assert CampaignTenants(p.campaigns, p.books);
  }

  lemma {:induction false} PlantedKeepsLinks(db: Db, tenant: string)
    requires SeedRowsLinked(db)
    ensures SeedRowsLinked(Planted(db, tenant))
  {
    assert SEED_PAPERBACK != SEED_EBOOK;
  }

  lemma {:induction false} PlantedKeepsInv(db: Db, tenant: string)
    requires Inv(db) && SEED_AUTHOR in db.customers && db.customers[SEED_AUTHOR].tenant == tenant
    requires OneMindPerAuthor(Planted(db, tenant).minds)
    ensures Inv(Planted(db, tenant))
  {
    PlantedKeepsKeys(db, tenant);
    PlantedKeepsTenants(db, tenant);
    PlantedKeepsLinks(db, tenant);
  }

  /** The seed keeps the invariant, however much of it is already there and whether or not it raises. */
  lemma {:induction false} SeedKeepsInv(db: Db, tenant: string, reuse: bool)
    requires Inv(db)
    ensures Inv(Seeded(db, tenant, reuse).0)
  {
    if !AuthorTaken(db, tenant) {
      var authored := Authored(db, tenant, reuse);
      CustomersMayGrow(db, authored.customers);
      if OneMindPerAuthor(Planted(authored, tenant).minds) {
        PlantedKeepsInv(authored, tenant);
      }
    }
  }

  /** Planting raises exactly when the author has a mind that is not the seed's. */
  lemma {:induction false} PlantRaisesExactly(db: Db, tenant: string)
    requires Inv(db)
    ensures OneMindPerAuthor(Planted(db, tenant).minds) <==> !StrayMind(db)
  {
    if StrayMind(db) {
      var x :| x in db.minds && db.minds[x].author == SEED_AUTHOR;
      assert Planted(db, tenant).minds[x].author == Planted(db, tenant).minds[SEED_MIND].author;
    } else {
      OnlyMindFits(db.minds, tenant);
    }
  }

  /** An uninterrupted seed raises if and only if another tenant owns the author or the author has a stray mind. */
  lemma {:induction false} SeedRaisesExactly(db: Db, tenant: string, reuse: bool)
    requires Inv(db)
    ensures Seeded(db, tenant, reuse).1 <==> !AuthorTaken(db, tenant) && !StrayMind(db)
  {
    if !AuthorTaken(db, tenant) {
      var authored := Authored(db, tenant, reuse);
      CustomersMayGrow(db, authored.customers);
      PlantRaisesExactly(authored, tenant);
      assert authored.minds == db.minds;
    }
  }

  lemma {:induction false} ResetKeepsInv(db: Db, tenant: string)
    requires Inv(db)
    ensures Inv(Reset(db, tenant).0)
  {
    PurgedOfTenant(db, tenant);
    SeedKeepsInv(Stage(db, tenant, 7), tenant, true);
  }

  predicate OthersKept(db: Db, after: Db, tenant: string) {
    && (forall x | x in db.customers && db.customers[x].tenant != tenant :: x in after.customers && after.customers[x] == db.customers[x])
    && (forall x | x in db.minds && db.minds[x].tenant != tenant :: x in after.minds && after.minds[x] == db.minds[x])
    && (forall x | x in db.books && db.books[x].tenant != tenant :: x in after.books && after.books[x] == db.books[x])
    && (forall x | x in db.editions && db.editions[x].tenant != tenant :: x in after.editions && after.editions[x] == db.editions[x])
    && (forall x | x in db.documents && db.documents[x].tenant != tenant ::
          x in after.documents && after.documents[x] == db.documents[x])
    && (forall x | x in db.assets && db.assets[x].tenant != tenant :: x in after.assets && after.assets[x] == db.assets[x])
    && (forall x | x in db.campaigns && db.campaigns[x].tenant != tenant ::
          x in after.campaigns && after.campaigns[x] == db.campaigns[x])
    && (forall x | x in db.tasks && db.tasks[x].tenant != tenant :: x in after.tasks && after.tasks[x] == db.tasks[x])
  }

  lemma {:induction false} StageKeepsOthers(db: Db, tenant: string, k: nat)
    requires Inv(db) && k <= 7
    ensures OthersKept(db, Stage(db, tenant, k), tenant)
  {
    OnlyOwnRowsDeleted(db, tenant, k);
  }

  ghost predicate Grows<T>(before: map<Id, T>, after: map<Id, T>) {
    forall x | x in before :: x in after && after[x] == before[x]
  }

  lemma {:induction false} PlantedGrows(s: Db, tenant: string)
    ensures var p := Planted(s, tenant);
            && p.customers == s.customers && p.assets == s.assets && p.campaigns == s.campaigns && p.tasks == s.tasks
            && Grows(s.minds, p.minds) && Grows(s.books, p.books) && Grows(s.editions, p.editions)
            && Grows(s.documents, p.documents)
  {
  }

  lemma {:induction false} AuthoredKeepsOthers(db: Db, s: Db, tenant: string, reuse: bool)
    requires OthersKept(db, s, tenant) && !AuthorTaken(s, tenant)
    ensures OthersKept(db, Authored(s, tenant, reuse), tenant)
  {
    assert forall x | x in db.customers && db.customers[x].tenant != tenant :: x != SEED_AUTHOR;
  }

  lemma {:induction false} SeedKeepsOthers(db: Db, s: Db, tenant: string, reuse: bool)
    requires OthersKept(db, s, tenant)
    ensures OthersKept(db, Seeded(s, tenant, reuse).0, tenant)
  {
    if !AuthorTaken(s, tenant) {
      var authored := Authored(s, tenant, reuse);
      AuthoredKeepsOthers(db, s, tenant, reuse);
      PlantedGrows(authored, tenant);
      GrownKeepsOthers(db, authored, Planted(authored, tenant), tenant);
    }
  }

  /** Whether or not the reset succeeds, every row of another tenant is as before. */
  lemma {:induction false} ResetLeavesOthersAlone(db: Db, tenant: string)
    requires Inv(db)
    ensures OthersKept(db, Reset(db, tenant).0, tenant)
  {
    StageKeepsOthers(db, tenant, 7);
    SeedKeepsOthers(db, Stage(db, tenant, 7), tenant, true);
  }

  lemma {:induction false} GrownKeepsOthers(db: Db, s: Db, p: Db, tenant: string)
    requires OthersKept(db, s, tenant) && p.customers == s.customers && p.assets == s.assets
    requires p.campaigns == s.campaigns && p.tasks == s.tasks && Grows(s.minds, p.minds) && Grows(s.books, p.books)
    requires Grows(s.editions, p.editions) && Grows(s.documents, p.documents)
    ensures OthersKept(db, p, tenant)
  {
  }

  /** Resetting again changes nothing. */
  lemma {:induction false} SecondResetChangesNothing(db: Db, tenant: string)
    requires Inv(db)
    ensures Reset(Reset(db, tenant).0, tenant) == Reset(db, tenant)
  {
    ResetSeedsExactly(db, tenant);
    ResetKeepsInv(db, tenant);
    var once := Reset(db, tenant).0;
    ResetSeedsExactly(once, tenant);
    if AuthorTaken(db, tenant) {
      PurgedAgain(db, tenant);
    } else {
      SeedRowsReturn(once, tenant);
    }
  }

  /** Deleting twice is deleting once. */
  lemma {:induction false} PurgedAgain(db: Db, tenant: string)
    requires Inv(db)
    ensures Stage(Stage(db, tenant, 7), tenant, 7) == Stage(db, tenant, 7)
  {
    PurgedOfTenant(db, tenant);
    var s := Stage(db, tenant, 7);
    assert BooksOf(s, tenant) == {};
    NothingToDelete(s, tenant);
    assert DeleteMinds(s.minds, tenant) == s.minds;
  }

  /** On an exactly seeded database, deleting and seeding again restores every table. */
  lemma {:induction false} SeedRowsReturn(once: Db, tenant: string)
    requires Inv(once) && ExactlySeeded(once, tenant)
    ensures SeedRows(Stage(once, tenant, 7), tenant, true) == once
  {
    assert BooksOf(once, tenant) == {SEED_BOOK};
    MindsReturn(once, tenant);
    BooksReturn(once, tenant);
    EditionsReturn(once, tenant);
    DocumentsReturn(once, tenant);
    NothingElseHangsOffTheBook(once, tenant);
    assert once.customers[SEED_AUTHOR := once.customers[SEED_AUTHOR].(data := SEED_DATA)] == once.customers;
  }

  lemma {:induction false} MindsReturn(once: Db, tenant: string)
    requires ExactlySeeded(once, tenant)
    ensures IfMissing(DeleteMinds(once.minds, tenant), SEED_MIND, SeedMind(tenant)) == once.minds
  {
  }

  lemma {:induction false} BooksReturn(once: Db, tenant: string)
    requires ExactlySeeded(once, tenant)
    ensures IfMissing(DeleteBooks(once.books, {SEED_BOOK}), SEED_BOOK, Book(tenant, SEED_AUTHOR, SEED_DATA)) == once.books
  {
  }

  lemma {:induction false} EditionsReturn(once: Db, tenant: string)
    requires Inv(once) && ExactlySeeded(once, tenant)
    ensures IfMissing(IfMissing(DeleteEditions(once.editions, {SEED_BOOK}), SEED_PAPERBACK,
                                Edition(tenant, SEED_BOOK, "paperback")),
                      SEED_EBOOK, Edition(tenant, SEED_BOOK, "ebook")) == once.editions
  {
    assert EditionTenants(once.editions, once.books);
  }

  lemma {:induction false} DocumentsReturn(once: Db, tenant: string)
    requires Inv(once) && ExactlySeeded(once, tenant)
    ensures IfMissing(DeleteDocuments(once.documents, {SEED_BOOK}), SEED_DOCUMENT, Document(tenant, SEED_BOOK, SEED_DATA))
         == once.documents
  {
    assert DocumentTenants(once.documents, once.books);
  }

  lemma {:induction false} NothingElseHangsOffTheBook(once: Db, tenant: string)
    requires Inv(once) && ExactlySeeded(once, tenant)
    ensures DeleteAssets(once.assets, {SEED_BOOK}) == once.assets
    ensures DeleteCampaigns(once.campaigns, {SEED_BOOK}) == once.campaigns
    ensures DeleteTasks(once.tasks, CampaignsOf(once, {SEED_BOOK})) == once.tasks
  {
    assert CampaignsOf(once, {SEED_BOOK}) == {};
  }

  // ---------------------------------------------------------------------------
  // The service
  // ---------------------------------------------------------------------------

  class CreatorDatabase {
    var db: Db

    constructor ()
      ensures db == EMPTY && Inv(db)
    {
      db := EMPTY;
    }

    /** The delete session: statement by statement, with every foreign key intact in between. */
    method Purge(tenant: string)
      requires Inv(db)
      modifies this
      ensures db == Stage(old(db), tenant, 7) && Inv(db)
    {
      ghost var before := db;
      var books := BooksOf(db, tenant);
      if books != {} {
        var campaigns := CampaignsOf(db, books);
        if campaigns != {} {
          db := db.(tasks := DeleteTasks(db.tasks, campaigns));
        }
        NothingToDelete(before, tenant);
        assert db == Stage(before, tenant, 1) && ForeignKeys(db) by { EveryDeleteKeepsKeys(before, tenant, 1); }
        db := db.(campaigns := DeleteCampaigns(db.campaigns, books));
        assert db == Stage(before, tenant, 2) && ForeignKeys(db) by { EveryDeleteKeepsKeys(before, tenant, 2); }
        db := db.(assets := DeleteAssets(db.assets, books));
        assert db == Stage(before, tenant, 3) && ForeignKeys(db) by { EveryDeleteKeepsKeys(before, tenant, 3); }
        db := db.(documents := DeleteDocuments(db.documents, books));
        assert db == Stage(before, tenant, 4) && ForeignKeys(db) by { EveryDeleteKeepsKeys(before, tenant, 4); }
        db := db.(editions := DeleteEditions(db.editions, books));
        assert db == Stage(before, tenant, 5) && ForeignKeys(db) by { EveryDeleteKeepsKeys(before, tenant, 5); }
        db := db.(books := DeleteBooks(db.books, books));
        assert db == Stage(before, tenant, 6) && ForeignKeys(db) by { EveryDeleteKeepsKeys(before, tenant, 6); }
      }
      NothingToDelete(before, tenant);
      db := db.(minds := DeleteMinds(db.minds, tenant));
      PurgedOfTenant(before, tenant);
    }

    /** The author in a session of its own, then the rows that are missing in one more. */
    method SeedCreatortrust(tenant: string, reuse: bool) returns (r: Result<()>)
      requires Inv(db)
      modifies this
      ensures (db, r.Ok?) == Seeded(old(db), tenant, reuse) && Inv(db)
      ensures AuthorSeeded(old(db).customers, db.customers, tenant, reuse)
      ensures if r.Ok? then SeedFilled(old(db), db, tenant) else db.(customers := old(db).customers) == old(db)
    {
      SeedKeepsInv(db, tenant, reuse);
      if SEED_AUTHOR !in db.customers {
        db := db.(customers := db.customers[SEED_AUTHOR := Customer(tenant, SEED_DATA, SEED_IDENTITY)]);
      } else if db.customers[SEED_AUTHOR].tenant != tenant {
        SeedWritesExactly(db, tenant, reuse);
        return Err("IntegrityError");
      } else if reuse {
        db := db.(customers := db.customers[SEED_AUTHOR := db.customers[SEED_AUTHOR].(data := SEED_DATA)]);
      }
      assert db.customers == old(db).customers[SEED_AUTHOR := AuthorRow(old(db).customers, tenant, reuse)];
      var planted := db;
      if SEED_MIND !in planted.minds {
        planted := planted.(minds := planted.minds[SEED_MIND := SeedMind(tenant)]);
      }
      if SEED_BOOK !in planted.books {
        planted := planted.(books := planted.books[SEED_BOOK := Book(tenant, SEED_AUTHOR, SEED_DATA)]);
      }
      if SEED_PAPERBACK !in planted.editions {
        planted := planted.(editions := planted.editions[SEED_PAPERBACK := Edition(tenant, SEED_BOOK, "paperback")]);
      }
      if SEED_EBOOK !in planted.editions {
        planted := planted.(editions := planted.editions[SEED_EBOOK := Edition(tenant, SEED_BOOK, "ebook")]);
      }
      if SEED_DOCUMENT !in planted.documents {
        planted := planted.(documents := planted.documents[SEED_DOCUMENT := Document(tenant, SEED_BOOK, SEED_DATA)]);
      }
      SeedWritesExactly(old(db), tenant, reuse);
      if !OneMindPerAuthor(planted.minds) {
        return Err("IntegrityError");
      }
      db := planted;
      r := Ok(());
    }

    /** An error leaves the deletes committed. */
    method ResetDemo(tenant: string) returns (r: Result<()>)
      requires Inv(db)
      modifies this
      ensures (db, r.Ok?) == Reset(old(db), tenant) && Inv(db)
      ensures r.Ok? <==> !AuthorTaken(old(db), tenant)
      ensures if r.Ok? then ExactlySeeded(db, tenant) else db == Stage(old(db), tenant, 7)
      ensures OthersKept(old(db), db, tenant)
    {
      ghost var before := db;
      Purge(tenant);
      var found := SEED_AUTHOR in db.customers && db.customers[SEED_AUTHOR].tenant == tenant;
      ReuseOnlyIfFound(db, tenant);
      r := SeedCreatortrust(tenant, found);
      ResetSeedsExactly(before, tenant);
      ResetLeavesOthersAlone(before, tenant);
    }
  }

  /** Asking to reuse an author that is not found makes no difference. */
  lemma {:induction false} ReuseOnlyIfFound(db: Db, tenant: string)
    ensures SEED_AUTHOR !in db.customers || db.customers[SEED_AUTHOR].tenant != tenant ==>
              Seeded(db, tenant, false) == Seeded(db, tenant, true)
  {
  }

  /** A tenant without books, or without campaigns, has nothing for the skipped statements to delete. */
  lemma {:induction false} NothingToDelete(db: Db, tenant: string)
    requires Inv(db)
    ensures CampaignsOf(db, BooksOf(db, tenant)) == {} ==> Stage(db, tenant, 1) == db
    ensures BooksOf(db, tenant) == {} ==> Stage(db, tenant, 6) == db
  {
    var books := BooksOf(db, tenant);
    if CampaignsOf(db, books) == {} {
      assert DeleteTasks(db.tasks, {}) == db.tasks;
    }
    if books == {} {
      assert CampaignsOf(db, books) == {};
      assert DeleteTasks(db.tasks, {}) == db.tasks && DeleteCampaigns(db.campaigns, {}) == db.campaigns;
      assert DeleteAssets(db.assets, {}) == db.assets && DeleteDocuments(db.documents, {}) == db.documents;
      assert DeleteEditions(db.editions, {}) == db.editions && DeleteBooks(db.books, {}) == db.books;
    }
  }
}
