/**
  The platform metadata rule and the two destination validators. Unicode stripping, case
  folding and str() are parameters; only what they do to the empty string is assumed.
 */
module Publishing {
  import opened Json
  import opened Wrappers

  datatype TextRules = TextRules(strip: string -> string, lower: string -> string, render: Json -> string)

  /** `"".strip()` and `"".lower()` are empty. */
  predicate Regular(t: TextRules) {
    t.strip("") == "" && t.lower("") == ""
  }

  datatype Edition = Edition(format: string, isbn: Option<string>, platformStrategy: Attributes)
  datatype Book = Book(workingTitle: string, finalTitle: Option<string>)
  datatype Issue = Issue(code: string, message: string, severity: string)

  const PRINT_FORMATS := {"paperback", "hardcover", "print"}
  const MARKETPLACE_NAMES := {"amazon", "kdp", "amazon kdp", "kindle", "ingram", "ingramspark"}
  const MARKETPLACE_PUBLISHERS := {"amazon", "kdp", "amazon kdp", "kindle", "ingramspark", "ingram", "amazon.com"}

  // ---------------------------------------------------------------------------
  // Values as the source reads them
  // ---------------------------------------------------------------------------

  predicate Falsy(v: Json) {
    v.Null? || v == Bool(false) || v == Num(0.0) || v == Str("") || v == List([]) || v == Dict(map[])
  }

  function Get(m: Attributes, key: string): Json {
    if key in m then m[key] else Null
  }

  /** `str(v or "")`. */
  function Text(v: Json, t: TextRules): string {
    if Falsy(v) then "" else if v.Str? then v.s else t.render(v)
  }

  function Or(v: Json, w: Json): Json {
    if Falsy(v) then w else v
  }

  function AsDict(v: Json): Attributes {
    if v.Dict? then v.entries else map[]
  }

  /** `edition.model_dump()`, as far as the rules look. */
  function Payload(e: Edition): Json {
    Dict(map["format" := Str(e.format),
             "isbn" := if e.isbn.Some? then Str(e.isbn.value) else Null,
             "platform_strategy" := Dict(e.platformStrategy)])
  }

  /** The context evaluate_asset builds; `asset` holds its asset, text and book entries. */
  function AssetContext(edition: Option<Edition>, author: Attributes, authorName: string, asset: Attributes): Attributes {
    asset + map["author" := Dict(author),
                "author_name" := Str(authorName),
                "context" := Dict(author),
                "edition" := if edition.Some? then Payload(edition.value) else Dict(map[])]
  }

  function AuthorContext(context: Attributes): Attributes {
    AsDict(Or(Get(context, "author"), Get(context, "context")))
  }

  function EditionOf(context: Attributes): Attributes {
    AsDict(Get(context, "edition"))
  }

  /** `isbn_required_missing` of the governance mapping, and the first check of the platform rule. */
  predicate IsbnMissing(context: Attributes, t: TextRules) {
    var edition := EditionOf(context);
    t.lower(Text(Get(edition, "format"), t)) in PRINT_FORMATS && t.strip(Text(Get(edition, "isbn"), t)) == ""
  }

  function Clean(s: string, t: TextRules): string {
    t.lower(t.strip(s))
  }

  /** The names a publisher field may carry. */
  function AllowedNames(author: Attributes, authorName: string, t: TextRules): set<string> {
    {Clean(Text(Get(author, "display_name"), t), t), Clean(Text(Get(author, "publisher_name"), t), t),
     Clean(authorName, t)} - {""}
  }

  predicate PlatformMetadataOk(context: Attributes, t: TextRules) {
    var edition, author := EditionOf(context), AuthorContext(context);
    var field := Get(AsDict(Get(edition, "platform_strategy")), "publisher_field");
    var publisher := t.strip(Text(Or(field, Or(Get(author, "publisher_name"), Get(author, "display_name"))), t));
    var allowed := AllowedNames(author, Text(Get(context, "author_name"), t), t);
    && !IsbnMissing(context, t)
    && publisher != "" && t.lower(publisher) !in MARKETPLACE_PUBLISHERS
    && (allowed == {} || t.lower(publisher) in allowed)
  }

  // ---------------------------------------------------------------------------
  // The destination validators
  // ---------------------------------------------------------------------------

  predicate PublisherAllowed(publisher: string, authorName: string, author: Attributes, t: TextRules) {
    var value := t.strip(publisher);
    && value != "" && t.lower(value) !in MARKETPLACE_NAMES
    && t.lower(value) in AllowedNames(author, authorName, t)
  }

  function NamedPublisher(edition: Edition, author: Attributes): Json {
    Or(Get(edition.platformStrategy, "publisher_field"), Or(Get(author, "publisher_name"), Get(author, "display_name")))
  }

  function KdpPublisher(edition: Edition, author: Attributes, authorName: string, t: TextRules): string {
    if Falsy(NamedPublisher(edition, author)) then authorName else Text(NamedPublisher(edition, author), t)
  }

  /** The entry says n: it is that string, or some other value that is not empty and is rendered so. */
  predicate Says(m: Attributes, key: string, n: string, t: TextRules) {
    key in m && !Falsy(m[key]) && n == (if m[key].Str? then m[key].s else t.render(m[key]))
  }

  /** n is a name of the author's: the display name, the imprint or the account name. */
  predicate IsName(author: Attributes, authorName: string, n: string, t: TextRules) {
    Says(author, "display_name", n, t) || Says(author, "publisher_name", n, t) || n == authorName
  }

  /**
    A publisher is accepted if and only if it is not blank, not a marketplace's name, and agrees with one of the
    author's names that is not blank, stripped and in lower case.
   */
  lemma {:induction false} AllowedExactly(publisher: string, authorName: string, author: Attributes, t: TextRules)
    requires Regular(t)
    ensures PublisherAllowed(publisher, authorName, author, t) <==>
              && t.strip(publisher) != ""
              && t.lower(t.strip(publisher)) !in {"amazon", "kdp", "amazon kdp", "kindle", "ingram", "ingramspark"}
              && t.lower(t.strip(publisher)) != ""
              && exists n :: IsName(author, authorName, n, t) && t.lower(t.strip(n)) == t.lower(t.strip(publisher))
  {
    var value := t.lower(t.strip(publisher));
    var display, imprint := Text(Get(author, "display_name"), t), Text(Get(author, "publisher_name"), t);
    assert Says(author, "display_name", display, t) || Clean(display, t) == "";
    assert Says(author, "publisher_name", imprint, t) || Clean(imprint, t) == "";
    if value in AllowedNames(author, authorName, t) {
      assert value == Clean(display, t) || value == Clean(imprint, t) || value == Clean(authorName, t);
      assert IsName(author, authorName, authorName, t);
    }
  }

  /** KDP looks at the edition's publisher field, the imprint, the display name and the account name, in this order. */
  lemma {:induction false} FirstNameCounts(edition: Edition, author: Attributes, authorName: string, n: string, t: TextRules)
    ensures var field, imprint := Get(edition.platformStrategy, "publisher_field"), Get(author, "publisher_name");
            var publisher := KdpPublisher(edition, author, authorName, t);
            && (Says(edition.platformStrategy, "publisher_field", n, t) ==> publisher == n)
            && (Falsy(field) && Says(author, "publisher_name", n, t) ==> publisher == n)
            && (Falsy(field) && Falsy(imprint) && Says(author, "display_name", n, t) ==> publisher == n)
            && (Falsy(field) && Falsy(imprint) && Falsy(Get(author, "display_name")) ==> publisher == authorName)
  {
  }

  predicate HasCode(issues: seq<Issue>, code: string) {
    exists i | 0 <= i < |issues| :: issues[i].code == code
  }

  method ValidateKdp(book: Book, edition: Edition, authorName: string, author: Attributes, t: TextRules)
    returns (ok: bool, issues: seq<Issue>)
    ensures ok <==> issues == []
    ensures HasCode(issues, "kdp_publisher_field")
       <==> !PublisherAllowed(KdpPublisher(edition, author, authorName, t), authorName, author, t)
    ensures HasCode(issues, "title") <==> book.workingTitle == "" && (book.finalTitle.None? || book.finalTitle.value == "")
    ensures forall i | 0 <= i < |issues| :: issues[i].code in {"kdp_publisher_field", "title"}
  {
    issues := [];
    if !PublisherAllowed(KdpPublisher(edition, author, authorName, t), authorName, author, t) {
      issues := issues + [Issue("kdp_publisher_field", "KDP publisher field must be the author or imprint name only.", "error")];
      assert issues[0].code == "kdp_publisher_field";
    }
    if book.workingTitle == "" && (book.finalTitle.None? || book.finalTitle.value == "") {
      ghost var before := issues;
      issues := issues + [Issue("title", "Title is required.", "error")];
      assert forall i | 0 <= i < |before| :: issues[i] == before[i];
      assert issues[|before|].code == "title";
    }
    ok := issues == [];
  }

  predicate IngramIsbnMissing(edition: Edition, t: TextRules) {
    t.lower(edition.format) in PRINT_FORMATS && t.strip(if edition.isbn.Some? then edition.isbn.value else "") == ""
  }

  method ValidateIngram(edition: Edition, t: TextRules) returns (ok: bool, issues: seq<Issue>)
    ensures ok <==> issues == []
    ensures HasCode(issues, "ingram_isbn") <==> IngramIsbnMissing(edition, t)
    ensures Regular(t) ==>
              (HasCode(issues, "ingram_isbn") <==>
                 && t.lower(edition.format) in {"paperback", "hardcover", "print"}
                 && (edition.isbn.None? || t.strip(edition.isbn.value) == ""))
    ensures HasCode(issues, "ingram_format") <==> edition.format == ""
    ensures forall i | 0 <= i < |issues| :: issues[i].code in {"ingram_isbn", "ingram_format"}
  {
    issues := [];
    if IngramIsbnMissing(edition, t) {
      issues := issues + [Issue("ingram_isbn", "Ingram print editions require an ISBN.", "error")];
      assert issues[0].code == "ingram_isbn";
    }
    if edition.format == "" {
      ghost var before := issues;
      issues := issues + [Issue("ingram_format", "Format is required.", "error")];
      assert forall i | 0 <= i < |before| :: issues[i] == before[i];
      assert issues[|before|].code == "ingram_format";
    }
    ok := issues == [];
  }

  // ---------------------------------------------------------------------------
  // The rule against the validators
  // ---------------------------------------------------------------------------

  lemma {:induction false} ContextReadsBack(edition: Edition, author: Attributes, authorName: string, asset: Attributes,
                                            t: TextRules)
    ensures var c := AssetContext(Some(edition), author, authorName, asset);
            && AuthorContext(c) == author && EditionOf(c) == Payload(edition).entries
            && Text(Get(c, "author_name"), t) == authorName
            && (IsbnMissing(c, t) <==> IngramIsbnMissing(edition, t))
  {
    var c := AssetContext(Some(edition), author, authorName, asset);
    assert EditionOf(c) == Payload(edition).entries;
    assert Text(Get(EditionOf(c), "format"), t) == edition.format;
    assert Text(Get(EditionOf(c), "isbn"), t) == if edition.isbn.Some? then edition.isbn.value else "";
  }

  /** A book without editions is evaluated against an empty edition, which needs no ISBN. */
  lemma {:induction false} NoEditionNoIsbn(author: Attributes, authorName: string, asset: Attributes, t: TextRules)
    requires Regular(t)
    ensures !IsbnMissing(AssetContext(None, author, authorName, asset), t)
  {
    var c := AssetContext(None, author, authorName, asset);
    assert EditionOf(c) == map[];
    assert Text(Get(EditionOf(c), "format"), t) == "";
  }

  /**
    The platform rule holds exactly when Ingram finds no missing ISBN and the first named publisher is
    there, is not amazon.com, and is one KDP accepts or nobody has a name to compare it with and it is
    no marketplace's.
   */
  lemma {:induction false} PlatformRuleExactly(edition: Edition, author: Attributes, authorName: string, asset: Attributes,
                                               t: TextRules)
    requires Regular(t)
    ensures var named := NamedPublisher(edition, author);
            var publisher := t.strip(Text(named, t));
            PlatformMetadataOk(AssetContext(Some(edition), author, authorName, asset), t) <==>
              && !IngramIsbnMissing(edition, t) && !Falsy(named) && t.lower(publisher) != "amazon.com"
              && if AllowedNames(author, authorName, t) == {}
                 then publisher != "" && t.lower(publisher) !in MARKETPLACE_NAMES
                 else PublisherAllowed(KdpPublisher(edition, author, authorName, t), authorName, author, t)
  {
    ContextReadsBack(edition, author, authorName, asset, t);
    assert MARKETPLACE_PUBLISHERS == MARKETPLACE_NAMES + {"amazon.com"};
  }

  /** When the rule holds Ingram raises no ISBN issue, and KDP raises a publisher issue only if every name is blank. */
  lemma {:induction false} PlatformRuleIsAsStrict(edition: Edition, author: Attributes, authorName: string,
                                                  asset: Attributes, t: TextRules)
    requires Regular(t) && PlatformMetadataOk(AssetContext(Some(edition), author, authorName, asset), t)
    ensures !IngramIsbnMissing(edition, t)
    ensures PublisherAllowed(KdpPublisher(edition, author, authorName, t), authorName, author, t)
       <==> AllowedNames(author, authorName, t) != {}
    ensures Clean(authorName, t) != "" ==>
              PublisherAllowed(KdpPublisher(edition, author, authorName, t), authorName, author, t)
  {
    PlatformRuleExactly(edition, author, authorName, asset, t);
    assert Clean(authorName, t) != "" ==> Clean(authorName, t) in AllowedNames(author, authorName, t);
  }
}
