/**
  Turning a Mind's HTML reply into plain text: the tag handlers collect parts, then three
  rewrites and a strip bring the whitespace into normal form.
 */
module HtmlText {
  import opened Strings

  predicate IsBlank(c: char) {
    c == ' ' || c == '\t'
  }

  predicate IsNewline(c: char) {
    c == '\n'
  }

  // ---------------------------------------------------------------------------
  // The rewrites, as leftmost-longest substitutions
  // ---------------------------------------------------------------------------

  /** How many characters at the front satisfy a test. */
  function RunLength(s: string, test: char -> bool): (n: nat)
    ensures n <= |s| && forall i | 0 <= i < n :: test(s[i])
    ensures n < |s| ==> !test(s[n])
  {
    if s == [] || !test(s[0]) then 0
    else
      var rest := RunLength(s[1..], test);
      assert forall i | 1 <= i < rest + 1 :: s[i] == s[1..][i - 1];
      rest + 1
  }

  /** `re.sub(r"[ \t]+\n", "\n", s)` */
  function DropTrailingBlanks(s: string): string
    decreases |s|
  {
    if s == [] then []
    else
      var n := RunLength(s, IsBlank);
      if n == 0 then [s[0]] + DropTrailingBlanks(s[1..])
      else if n < |s| && s[n] == '\n' then ['\n'] + DropTrailingBlanks(s[n + 1..])
      else s[..n] + DropTrailingBlanks(s[n..])
  }

  /** `re.sub(r"\n{3,}", "\n\n", s)` */
  function LimitNewlines(s: string): string
    decreases |s|
  {
    if s == [] then []
    else
      var n := RunLength(s, IsNewline);
      if n == 0 then [s[0]] + LimitNewlines(s[1..])
      else (if n >= 3 then ['\n', '\n'] else s[..n]) + LimitNewlines(s[n..])
  }

  /** `re.sub(r"[ \t]{2,}", " ", s)` */
  function CollapseBlanks(s: string): string
    decreases |s|
  {
    if s == [] then []
    else
      var n := RunLength(s, IsBlank);
      if n == 0 then [s[0]] + CollapseBlanks(s[1..])
      else (if n >= 2 then [' '] else s[..n]) + CollapseBlanks(s[n..])
  }

  function Clean(s: string, isSpace: char -> bool): string {
    Strip(CollapseBlanks(LimitNewlines(DropTrailingBlanks(s))), isSpace)
  }

  // ---------------------------------------------------------------------------
  // The normal form
  // ---------------------------------------------------------------------------

  predicate BlankThenNewline(s: string, i: int) {
    0 <= i < |s| - 1 && IsBlank(s[i]) && s[i + 1] == '\n'
  }

  predicate ThreeNewlines(s: string, i: int) {
    0 <= i < |s| - 2 && s[i] == '\n' && s[i + 1] == '\n' && s[i + 2] == '\n'
  }

  predicate TwoBlanks(s: string, i: int) {
    0 <= i < |s| - 1 && IsBlank(s[i]) && IsBlank(s[i + 1])
  }

  ghost predicate NoBlankBeforeNewline(s: string) {
    forall i :: !BlankThenNewline(s, i)
  }

  ghost predicate NoThreeNewlines(s: string) {
    forall i :: !ThreeNewlines(s, i)
  }

  ghost predicate NoTwoBlanks(s: string) {
    forall i :: !TwoBlanks(s, i)
  }

  predicate Trimmed(s: string, isSpace: char -> bool) {
    s == [] || (!isSpace(s[0]) && !isSpace(s[|s| - 1]))
  }

  ghost predicate Normal(s: string, isSpace: char -> bool) {
    NoBlankBeforeNewline(s) && NoThreeNewlines(s) && NoTwoBlanks(s) && Trimmed(s, isSpace)
  }

  // ---------------------------------------------------------------------------
  // Each rewrite gives its property and keeps the earlier ones
  // ---------------------------------------------------------------------------

  lemma {:induction false} PrependNoBlank(c: char, s: string)
    requires NoBlankBeforeNewline(s) && !(IsBlank(c) && s != [] && s[0] == '\n')
    ensures NoBlankBeforeNewline([c] + s)
  {
    forall i ensures !BlankThenNewline([c] + s, i) {
      assert !BlankThenNewline(s, i - 1);
    }
  }

  /** A block of blanks that no newline follows. */
  lemma {:induction false} PrependBlanks(b: string, s: string)
    requires (forall i | 0 <= i < |b| :: IsBlank(b[i])) && NoBlankBeforeNewline(s) && (s == [] || s[0] != '\n')
    ensures NoBlankBeforeNewline(b + s)
  {
    if b == [] {
      assert b + s == s;
    } else {
      PrependBlanks(b[1..], s);
      assert b + s == [b[0]] + (b[1..] + s);
      PrependNoBlank(b[0], b[1..] + s);
    }
  }

  lemma {:induction false} DroppedShape(s: string)
    ensures NoBlankBeforeNewline(DropTrailingBlanks(s))
    ensures s != [] && !IsBlank(s[0]) ==> DropTrailingBlanks(s) != [] && DropTrailingBlanks(s)[0] == s[0]
    decreases |s|
  {
    if s != [] {
      var n := RunLength(s, IsBlank);
      if n == 0 {
        DroppedShape(s[1..]);
        PrependNoBlank(s[0], DropTrailingBlanks(s[1..]));
      } else if n < |s| && s[n] == '\n' {
        DroppedShape(s[n + 1..]);
        PrependNoBlank('\n', DropTrailingBlanks(s[n + 1..]));
      } else {
        DroppedShape(s[n..]);
        PrependBlanks(s[..n], DropTrailingBlanks(s[n..]));
      }
    }
  }

  lemma {:induction false} NoBlankTail(s: string, k: nat)
    requires NoBlankBeforeNewline(s) && k <= |s|
    ensures NoBlankBeforeNewline(s[k..])
  {
    forall i ensures !BlankThenNewline(s[k..], i) {
      assert !BlankThenNewline(s, k + i);
    }
  }

  /** Newline runs are cut to two; what comes before a run is left as it is. */
  lemma {:induction false} LimitedShape(s: string)
    requires NoBlankBeforeNewline(s)
    ensures NoThreeNewlines(LimitNewlines(s)) && NoBlankBeforeNewline(LimitNewlines(s))
    ensures s == [] <==> LimitNewlines(s) == []
    ensures s != [] ==> LimitNewlines(s)[0] == s[0]
    decreases |s|
  {
    if s != [] {
      var n := RunLength(s, IsNewline);
      if n == 0 {
        NoBlankTail(s, 1);
        LimitedShape(s[1..]);
        var rest := LimitNewlines(s[1..]);
        assert rest != [] ==> rest[0] == s[1];
        assert !BlankThenNewline(s, 0);
        PrependNoBlank(s[0], rest);
        PrependThree(s[0], rest);
      } else {
        NoBlankTail(s, n);
        LimitedShape(s[n..]);
        var rest := LimitNewlines(s[n..]);
        assert rest != [] ==> rest[0] == s[n];
        PrependNewlines(if n >= 3 then 2 else n, rest);
        assert (if n >= 3 then ['\n', '\n'] else s[..n]) == Newlines(if n >= 3 then 2 else n);
      }
    }
  }

  function Newlines(n: nat): (r: string)
    ensures |r| == n && forall i | 0 <= i < n :: r[i] == '\n'
  {
    seq(n, i => '\n')
  }

  lemma {:induction false} PrependNewlines(n: nat, s: string)
    requires 1 <= n <= 2 && NoThreeNewlines(s) && NoBlankBeforeNewline(s) && (s == [] || s[0] != '\n')
    ensures NoThreeNewlines(Newlines(n) + s) && NoBlankBeforeNewline(Newlines(n) + s)
  {
    PrependNoBlank('\n', s);
    PrependThree('\n', s);
    if n == 1 {
      assert Newlines(n) + s == ['\n'] + s;
    } else {
      assert Newlines(n) + s == ['\n'] + (['\n'] + s);
      PrependNoBlank('\n', ['\n'] + s);
      PrependThree('\n', ['\n'] + s);
    }
  }

  lemma {:induction false} NoThreeTail(s: string, k: nat)
    requires NoThreeNewlines(s) && k <= |s|
    ensures NoThreeNewlines(s[k..])
  {
    forall i ensures !ThreeNewlines(s[k..], i) {
      assert !ThreeNewlines(s, k + i);
    }
  }

  /** Blank runs become one blank; no newline is touched, so the earlier properties stay. */
  lemma {:induction false} CollapsedShape(s: string)
    requires NoBlankBeforeNewline(s) && NoThreeNewlines(s)
    ensures NoTwoBlanks(CollapseBlanks(s)) && NoBlankBeforeNewline(CollapseBlanks(s)) && NoThreeNewlines(CollapseBlanks(s))
    ensures s == [] <==> CollapseBlanks(s) == []
    ensures s != [] ==> (CollapseBlanks(s)[0] == s[0] || (IsBlank(CollapseBlanks(s)[0]) && IsBlank(s[0])))
    ensures |s| >= 2 && s[0] == '\n' && s[1] == '\n' ==> |CollapseBlanks(s)| >= 2 && CollapseBlanks(s)[1] == '\n'
    ensures |CollapseBlanks(s)| >= 2 && CollapseBlanks(s)[0] == '\n' && CollapseBlanks(s)[1] == '\n' ==>
              |s| >= 2 && s[1] == '\n'
    decreases |s|
  {
    if s != [] {
      var n := RunLength(s, IsBlank);
      var k := if n == 0 then 1 else n;
      NoBlankTail(s, k);
      NoThreeTail(s, k);
      CollapsedShape(s[k..]);
      var rest := CollapseBlanks(s[k..]);
      var c := if n >= 2 then ' ' else s[0];
      assert CollapseBlanks(s) == [c] + rest by {
        if n == 1 { assert s[..n] == [s[0]]; }
      }
      if n > 0 && n < |s| {
        assert !BlankThenNewline(s, n - 1);
      }
      PrependNoBlank(c, rest);
      PrependOne(c, rest);
      assert !ThreeNewlines(s, 0);
      PrependThree(c, rest);
    }
  }

  lemma {:induction false} PrependOne(c: char, s: string)
    requires NoTwoBlanks(s) && !(IsBlank(c) && s != [] && IsBlank(s[0]))
    ensures NoTwoBlanks([c] + s)
  {
    forall i ensures !TwoBlanks([c] + s, i) {
      assert !TwoBlanks(s, i - 1);
    }
  }

  lemma {:induction false} PrependThree(c: char, s: string)
    requires NoThreeNewlines(s) && !(c == '\n' && |s| >= 2 && s[0] == '\n' && s[1] == '\n')
    ensures NoThreeNewlines([c] + s)
  {
    forall i ensures !ThreeNewlines([c] + s, i) {
      assert !ThreeNewlines(s, i - 1);
    }
  }

  lemma {:induction false} StripIsSlice(s: string, isSpace: char -> bool) returns (lo: nat, hi: nat)
    ensures lo <= hi <= |s| && Strip(s, isSpace) == s[lo..hi] && Trimmed(s[lo..hi], isSpace)
    ensures forall i | 0 <= i < |s| && !(lo <= i < hi) :: isSpace(s[i])
  {
    lo := StripLeftIs(s, isSpace);
    var m := StripRightIs(s[lo..], isSpace);
    hi := lo + m;
    assert s[lo..][..m] == s[lo..hi];
    assert forall i | hi <= i < |s| :: s[i] == s[lo..][i - lo];
  }

  /** No later rewrite undoes an earlier one: the result has all four properties. */
  lemma {:induction false} CleanIsNormal(s: string, isSpace: char -> bool)
    ensures Normal(Clean(s, isSpace), isSpace)
  {
    DroppedShape(s);
    LimitedShape(DropTrailingBlanks(s));
    CollapsedShape(LimitNewlines(DropTrailingBlanks(s)));
    var t := CollapseBlanks(LimitNewlines(DropTrailingBlanks(s)));
    var lo, hi := StripIsSlice(t, isSpace);
    NormalSlice(t, lo, hi);
  }

  lemma {:induction false} NormalSlice(t: string, lo: nat, hi: nat)
    requires lo <= hi <= |t| && NoBlankBeforeNewline(t) && NoThreeNewlines(t) && NoTwoBlanks(t)
    ensures NoBlankBeforeNewline(t[lo..hi]) && NoThreeNewlines(t[lo..hi]) && NoTwoBlanks(t[lo..hi])
  {
    forall i ensures !BlankThenNewline(t[lo..hi], i) && !ThreeNewlines(t[lo..hi], i) && !TwoBlanks(t[lo..hi], i) {
      assert !BlankThenNewline(t, lo + i) && !ThreeNewlines(t, lo + i) && !TwoBlanks(t, lo + i);
    }
  }

  // ---------------------------------------------------------------------------
  // Fixed points
  // ---------------------------------------------------------------------------

  /** How much of the text the first substitution at or after the front covers, and what replaces it. */
  function DropStep(s: string): (r: (nat, string))
    requires s != []
    ensures 0 < r.0 <= |s|
    ensures r.1 == s[..r.0] || (r.1 == ['\n'] && forall i | 0 <= i < r.0 :: IsBlank(s[i]) || s[i] == '\n')
  {
    var n := RunLength(s, IsBlank);
    if n == 0 then (1, s[..1]) else if n < |s| && s[n] == '\n' then (n + 1, ['\n']) else (n, s[..n])
  }

  lemma {:induction false} DropSplits(s: string)
    requires s != []
    ensures DropTrailingBlanks(s) == DropStep(s).1 + DropTrailingBlanks(s[DropStep(s).0..])
  {
    assert s[..1] == [s[0]];
  }

  lemma {:induction false} NothingToDrop(s: string)
    requires NoBlankBeforeNewline(s)
    ensures DropTrailingBlanks(s) == s
    decreases |s|
  {
    if s != [] {
      var n := RunLength(s, IsBlank);
      assert !BlankThenNewline(s, (n as int) - 1);
      var (k, front) := DropStep(s);
      assert front == s[..k];
      DropSplits(s);
      NoBlankTail(s, k);
      NothingToDrop(s[k..]);
      assert s == s[..k] + s[k..];
    }
  }

  function LimitStep(s: string): (r: (nat, string))
    requires s != []
    ensures 0 < r.0 <= |s| && LimitNewlines(s) == r.1 + LimitNewlines(s[r.0..])
    ensures RunLength(s, IsNewline) < 3 ==> r.1 == s[..r.0]
    ensures r.1 == s[..r.0] || (r.1 == ['\n', '\n'] && forall i | 0 <= i < r.0 :: s[i] == '\n')
  {
    var n := RunLength(s, IsNewline);
    assert s[..1] == [s[0]];
    if n == 0 then (1, s[..1]) else (n, if n >= 3 then ['\n', '\n'] else s[..n])
  }

  lemma {:induction false} ShortRun(s: string)
    requires NoThreeNewlines(s)
    ensures RunLength(s, IsNewline) < 3
  {
    var n := RunLength(s, IsNewline);
    assert !ThreeNewlines(s, 0);
    assert n >= 3 ==> IsNewline(s[0]) && IsNewline(s[1]) && IsNewline(s[2]);
  }

  lemma {:induction false} NothingToLimit(s: string)
    requires NoThreeNewlines(s)
    ensures LimitNewlines(s) == s
    decreases |s|
  {
    if s != [] {
      ShortRun(s);
      var (k, front) := LimitStep(s);
      NoThreeTail(s, k);
      NothingToLimit(s[k..]);
      assert s == s[..k] + s[k..];
    }
  }

  lemma {:induction false} NoTwoTail(s: string)
    requires s != [] && NoTwoBlanks(s)
    ensures NoTwoBlanks(s[1..])
  {
    forall i ensures !TwoBlanks(s[1..], i) {
      assert !TwoBlanks(s, i + 1);
    }
  }

  lemma {:induction false} NothingToCollapse(s: string)
    requires NoTwoBlanks(s)
    ensures CollapseBlanks(s) == s
    decreases |s|
  {
    if s != [] {
      var n := RunLength(s, IsBlank);
      assert !TwoBlanks(s, 0);
      NoTwoTail(s);
      NothingToCollapse(s[1..]);
      assert s == [s[0]] + s[1..] && (n == 1 ==> s[..n] == [s[0]]);
    }
  }

  /** A text is a fixed point of the pipeline exactly when it is in normal form. */
  lemma {:induction false} FixedExactlyWhenNormal(s: string, isSpace: char -> bool)
    ensures Clean(s, isSpace) == s <==> Normal(s, isSpace)
  {
    CleanIsNormal(s, isSpace);
    if Normal(s, isSpace) {
      NothingToDrop(s);
      NothingToLimit(s);
      NothingToCollapse(s);
    }
  }

  lemma {:induction false} CleanIsIdempotent(s: string, isSpace: char -> bool)
    ensures Clean(Clean(s, isSpace), isSpace) == Clean(s, isSpace)
  {
    CleanIsNormal(s, isSpace);
    FixedExactlyWhenNormal(Clean(s, isSpace), isSpace);
  }

  // ---------------------------------------------------------------------------
  // Nothing but whitespace is touched
  // ---------------------------------------------------------------------------

  /** The characters that are not whitespace, in order. */
  function Ink(s: string, isSpace: char -> bool): string {
    if s == [] then [] else (if isSpace(s[0]) then [] else [s[0]]) + Ink(s[1..], isSpace)
  }

  /** Blanks and newlines are whitespace, whatever else is. */
  predicate Spacing(isSpace: char -> bool) {
    isSpace(' ') && isSpace('\t') && isSpace('\n')
  }

  lemma {:induction false} InkFront(c: char, s: string, isSpace: char -> bool)
    ensures Ink([c] + s, isSpace) == (if isSpace(c) then [] else [c]) + Ink(s, isSpace)
  {
    assert ([c] + s)[1..] == s;
  }

  lemma {:induction false} InkAppend(a: string, b: string, isSpace: char -> bool)
    ensures Ink(a + b, isSpace) == Ink(a, isSpace) + Ink(b, isSpace)
  {
    if a == [] {
      assert a + b == b;
    } else {
      InkAppend(a[1..], b, isSpace);
      assert a + b == [a[0]] + (a[1..] + b);
      InkFront(a[0], a[1..] + b, isSpace);
      var head := if isSpace(a[0]) then [] else [a[0]];
      assert head + (Ink(a[1..], isSpace) + Ink(b, isSpace)) == (head + Ink(a[1..], isSpace)) + Ink(b, isSpace);
    }
  }

  lemma {:induction false} NoInk(s: string, isSpace: char -> bool)
    requires forall i | 0 <= i < |s| :: isSpace(s[i])
    ensures Ink(s, isSpace) == []
  {
    if s != [] { NoInk(s[1..], isSpace); }
  }

  /** Keeping the front, or replacing one spacing block there by another. */
  lemma {:induction false} SwapFront(a: string, b: string, s: string, t: string, isSpace: char -> bool)
    requires a == b || ((forall i | 0 <= i < |a| :: isSpace(a[i])) && forall i | 0 <= i < |b| :: isSpace(b[i]))
    requires Ink(s, isSpace) == Ink(t, isSpace)
    ensures Ink(a + s, isSpace) == Ink(b + t, isSpace)
  {
    InkAppend(a, s, isSpace);
    InkAppend(b, t, isSpace);
    if a != b {
      NoInk(a, isSpace);
      NoInk(b, isSpace);
    }
  }

  lemma {:induction false} DropKeepsInk(s: string, isSpace: char -> bool)
    requires Spacing(isSpace)
    ensures Ink(DropTrailingBlanks(s), isSpace) == Ink(s, isSpace)
    decreases |s|
  {
    if s != [] {
      var (k, front) := DropStep(s);
      DropSplits(s);
      DropKeepsInk(s[k..], isSpace);
      SwapFront(front, s[..k], DropTrailingBlanks(s[k..]), s[k..], isSpace);
      assert s == s[..k] + s[k..];
    }
  }

  lemma {:induction false} LimitKeepsInk(s: string, isSpace: char -> bool)
    requires Spacing(isSpace)
    ensures Ink(LimitNewlines(s), isSpace) == Ink(s, isSpace)
    decreases |s|
  {
    if s != [] {
      var (k, front) := LimitStep(s);
      LimitKeepsInk(s[k..], isSpace);
      SwapFront(front, s[..k], LimitNewlines(s[k..]), s[k..], isSpace);
      assert s == s[..k] + s[k..];
    }
  }

  function CollapseStep(s: string): (r: (nat, string))
    requires s != []
    ensures 0 < r.0 <= |s| && CollapseBlanks(s) == r.1 + CollapseBlanks(s[r.0..])
    ensures r.1 == s[..r.0] || (r.1 == [' '] && forall i | 0 <= i < r.0 :: IsBlank(s[i]))
  {
    var n := RunLength(s, IsBlank);
    assert s[..1] == [s[0]];
    if n == 0 then (1, s[..1]) else (n, if n >= 2 then [' '] else s[..n])
  }

  lemma {:induction false} CollapseKeepsInk(s: string, isSpace: char -> bool)
    requires Spacing(isSpace)
    ensures Ink(CollapseBlanks(s), isSpace) == Ink(s, isSpace)
    decreases |s|
  {
    if s != [] {
      var (k, front) := CollapseStep(s);
      CollapseKeepsInk(s[k..], isSpace);
      SwapFront(front, s[..k], CollapseBlanks(s[k..]), s[k..], isSpace);
      assert s == s[..k] + s[k..];
    }
  }

  /** The pipeline keeps every other character, in order. */
  lemma {:induction false} CleanKeepsInk(s: string, isSpace: char -> bool)
    requires Spacing(isSpace)
    ensures Ink(Clean(s, isSpace), isSpace) == Ink(s, isSpace)
  {
    DropKeepsInk(s, isSpace);
    LimitKeepsInk(DropTrailingBlanks(s), isSpace);
    CollapseKeepsInk(LimitNewlines(DropTrailingBlanks(s)), isSpace);
    StripKeepsInk(CollapseBlanks(LimitNewlines(DropTrailingBlanks(s))), isSpace);
  }

  lemma {:induction false} StripKeepsInk(t: string, isSpace: char -> bool)
    ensures Ink(Strip(t, isSpace), isSpace) == Ink(t, isSpace)
  {
    var lo, hi := StripIsSlice(t, isSpace);
    assert t == t[..lo] + t[lo..hi] + t[hi..];
    InkAppend(t[..lo] + t[lo..hi], t[hi..], isSpace);
    InkAppend(t[..lo], t[lo..hi], isSpace);
    NoInk(t[..lo], isSpace);
    NoInk(t[hi..], isSpace);
  }

  // ---------------------------------------------------------------------------
  // The parser's handlers
  // ---------------------------------------------------------------------------

  const BLOCK_TAGS := {"p", "div", "section", "article", "header", "footer", "blockquote", "h1", "h2", "h3", "h4", "h5",
                       "h6", "tr", "pre", "ul", "ol", "table"}
  const BREAK_TAGS := {"br", "hr"}
  const LIST_ITEM_TAGS := {"li"}
  const BULLET := "\n\U{2022} "

  function Joined(parts: seq<string>): string {
    if parts == [] then "" else Joined(parts[..|parts| - 1]) + parts[|parts| - 1]
  }

  /** What the parser reports, in order; tags arrive in lower case. */
  datatype Event = StartTag(tag: string) | EndTag(tag: string) | Data(text: string)

  /** The part an event appends, if any. */
  function Part(e: Event): seq<string> {
    match e
    case StartTag(tag) =>
      if tag in BREAK_TAGS then ["\n"] else if tag in LIST_ITEM_TAGS then [BULLET]
      else if tag in BLOCK_TAGS then ["\n\n"] else []
    case EndTag(tag) => if tag in BLOCK_TAGS || tag in LIST_ITEM_TAGS then ["\n"] else []
    case Data(text) => [text]
  }

  function Parts(events: seq<Event>): seq<string> {
    if events == [] then [] else Parts(events[..|events| - 1]) + Part(events[|events| - 1])
  }

  /** What an event contributes to the text a reader sees: the data, and a bullet for a list item. */
  function EventInk(e: Event, isSpace: char -> bool): string {
    match e
    case StartTag(tag) => if tag in LIST_ITEM_TAGS then ['\U{2022}'] else []
    case EndTag(_) => []
    case Data(text) => Ink(text, isSpace)
  }

  function DataInk(events: seq<Event>, isSpace: char -> bool): string {
    if events == [] then []
    else DataInk(events[..|events| - 1], isSpace) + EventInk(events[|events| - 1], isSpace)
  }

  lemma {:induction false} MarkerInk(isSpace: char -> bool)
    requires Spacing(isSpace) && !isSpace('\U{2022}')
    ensures Ink("\n", isSpace) == [] && Ink("\n\n", isSpace) == [] && Ink(BULLET, isSpace) == ['\U{2022}']
  {
    InkFront('\n', [], isSpace);
    InkFront('\n', ['\n'], isSpace);
    InkFront(' ', [], isSpace);
    InkFront('\U{2022}', [' '], isSpace);
    InkFront('\n', ['\U{2022}', ' '], isSpace);
    assert ['\n'] + [] == "\n" && ['\n'] + ['\n'] == "\n\n" && [' '] + [] == [' '];
    assert ['\U{2022}'] + [' '] == ['\U{2022}', ' '] && ['\n'] + ['\U{2022}', ' '] == BULLET;
  }

  lemma {:induction false} JoinedAppend(parts: seq<string>, p: string)
    ensures Joined(parts + [p]) == Joined(parts) + p
  {
    assert (parts + [p])[..|parts|] == parts;
  }

  lemma {:induction false} PartInk(parts: seq<string>, e: Event, isSpace: char -> bool)
    requires Spacing(isSpace) && !isSpace('\U{2022}')
    ensures Ink(Joined(parts + Part(e)), isSpace) == Ink(Joined(parts), isSpace) + EventInk(e, isSpace)
  {
    MarkerInk(isSpace);
    if Part(e) == [] {
      assert parts + [] == parts;
    } else {
      var p := Part(e)[0];
      assert EventInk(e, isSpace) == Ink(p, isSpace);
      JoinedAppend(parts, p);
      InkAppend(Joined(parts), p, isSpace);
    }
  }

  /** No tag loses or invents text: the result carries exactly the data's ink and a bullet for each list item. */
  lemma {:induction false} TagsKeepInk(events: seq<Event>, isSpace: char -> bool)
    requires Spacing(isSpace) && !isSpace('\U{2022}')
    ensures Ink(Clean(Joined(Parts(events)), isSpace), isSpace) == DataInk(events, isSpace)
  {
    CleanKeepsInk(Joined(Parts(events)), isSpace);
    PartsInk(events, isSpace);
  }

  lemma {:induction false} PartsInk(events: seq<Event>, isSpace: char -> bool)
    requires Spacing(isSpace) && !isSpace('\U{2022}')
    ensures Ink(Joined(Parts(events)), isSpace) == DataInk(events, isSpace)
  {
    if events != [] {
      var k := |events| - 1;
      PartsInk(events[..k], isSpace);
      PartInk(Parts(events[..k]), events[k], isSpace);
    }
  }

  class HtmlToText {
    var parts: seq<string>

    constructor ()
      ensures parts == []
    {
      parts := [];
    }

    method HandleStartTag(tag: string)
      modifies this
      ensures parts == old(parts) + Part(StartTag(tag))
    {
      if tag in BREAK_TAGS {
        parts := parts + ["\n"];
      } else if tag in LIST_ITEM_TAGS {
        parts := parts + [BULLET];
      } else if tag in BLOCK_TAGS {
        parts := parts + ["\n\n"];
      }
    }

    method HandleEndTag(tag: string)
      modifies this
      ensures parts == old(parts) + Part(EndTag(tag))
    {
      if tag in BLOCK_TAGS || tag in LIST_ITEM_TAGS {
        parts := parts + ["\n"];
      }
    }

    method HandleData(data: string)
      modifies this
      ensures parts == old(parts) + Part(Data(data))
    {
      parts := parts + [data];
    }

    /** The text in normal form, with every non-whitespace character that was collected. */
    method Text(isSpace: char -> bool) returns (text: string)
      ensures text == Clean(Joined(parts), isSpace) && Normal(text, isSpace)
      ensures Spacing(isSpace) ==> Ink(text, isSpace) == Ink(Joined(parts), isSpace)
    {
      var raw := "";
      for i := 0 to |parts|
        invariant raw == Joined(parts[..i])
      {
        assert parts[..i + 1][..i] == parts[..i];
        raw := raw + parts[i];
      }
      assert parts[..|parts|] == parts;
      CleanIsNormal(raw, isSpace);
      if Spacing(isSpace) {
        CleanKeepsInk(raw, isSpace);
      }
      raw := DropTrailingBlanks(raw);
      raw := LimitNewlines(raw);
      raw := CollapseBlanks(raw);
      text := Strip(raw, isSpace);
    }
  }
}
