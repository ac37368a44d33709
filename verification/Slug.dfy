/**
  Tenant slugs: the backend normalisation, the slug pattern, and the frontend derivation.
  Unicode case folding and whitespace are parameters; only their effect on the characters a
  slug may hold is assumed.
 */
module Slug {
  import opened Strings
  import opened Wrappers

  datatype Unicode = Unicode(lower: char -> string, isSpace: char -> bool)

  predicate IsAlnum(c: char) {
    'a' <= c <= 'z' || '0' <= c <= '9'
  }

  predicate NotAlnum(c: char) {
    !IsAlnum(c)
  }

  predicate IsHyphen(c: char) {
    c == '-'
  }

  predicate AllowedIn(c: char) {
    IsAlnum(c) || c == '-'
  }

  /** Slug characters are already lower case and are no whitespace; whitespace lowers to nothing a slug keeps. */
  ghost predicate Regular(u: Unicode) {
    && (forall c | AllowedIn(c) :: u.lower(c) == [c] && !u.isSpace(c))
    && (forall c | u.isSpace(c) :: forall i | 0 <= i < |u.lower(c)| :: !IsAlnum(u.lower(c)[i]))
  }

  // ---------------------------------------------------------------------------
  // The rewrites
  // ---------------------------------------------------------------------------

  function Lower(s: string, u: Unicode): string {
    if s == [] then [] else u.lower(s[0]) + Lower(s[1..], u)
  }

  /** `re.sub(r"[^a-z0-9]+", "-", s)` */
  function Hyphenate(s: string): string
    decreases |s|
  {
    if s == [] then []
    else if IsAlnum(s[0]) then [s[0]] + Hyphenate(s[1..])
    else ['-'] + Hyphenate(StripLeft(s, NotAlnum))
  }

  function StripHyphens(s: string): string {
    Strip(s, IsHyphen)
  }

  /** `_normalize_slug` */
  function Normalize(value: string, u: Unicode): Result<string> {
    var slug := StripHyphens(Hyphenate(Lower(Strip(value, u.isSpace), u)));
    if slug == [] then Err("ValueError") else Ok(slug)
  }

  /** `.replace(/^-|-$/g, '')`: at most one hyphen at each end. */
  function StripOneHyphen(s: string): string {
    var t := if s != [] && s[0] == '-' then s[1..] else s;
    if t != [] && t[|t| - 1] == '-' then t[..|t| - 1] else t
  }

  /** The slug the tenant form derives. */
  function FrontendSlug(name: string, u: Unicode): string {
    StripOneHyphen(Hyphenate(Lower(name, u)))
  }

  // ---------------------------------------------------------------------------
  // The slug pattern
  // ---------------------------------------------------------------------------

  /** `[a-z0-9]+(?:-[a-z0-9]+)*` over the whole string, read left to right. */
  predicate Pattern(s: string) {
    s != [] && IsAlnum(s[0]) && AfterAlnum(s[1..])
  }

  predicate AfterAlnum(s: string) {
    s == [] || (if s[0] == '-' then Pattern(s[1..]) else IsAlnum(s[0]) && AfterAlnum(s[1..]))
  }

  /** `SLUG_RE.match(s)`: Python's `$` also matches before a final newline. */
  predicate Matches(s: string) {
    Pattern(s) || (s != [] && s[|s| - 1] == '\n' && Pattern(s[..|s| - 1]))
  }

  const LIMIT := 63

  /** `_validate_slug` */
  function Validate(s: string): Result<()> {
    if |s| > LIMIT then Err("Tenant slug must be 63 characters or fewer")
    else if !Matches(s) then Err("Tenant slug must be lowercase alphanumeric with single hyphens")
    else Ok(())
  }

  // ---------------------------------------------------------------------------
  // What the pattern means
  // ---------------------------------------------------------------------------

  predicate NoDoubleHyphen(s: string) {
    forall i | 0 <= i < |s| - 1 :: !(s[i] == '-' && s[i + 1] == '-')
  }

  predicate SlugChars(s: string) {
    forall i | 0 <= i < |s| :: AllowedIn(s[i])
  }

  predicate OpenEnded(s: string) {
    SlugChars(s) && NoDoubleHyphen(s)
  }

  /** A slug: letters and digits, joined by single hyphens, none at either end. */
  predicate IsSlug(s: string) {
    s != [] && OpenEnded(s) && s[0] != '-' && s[|s| - 1] != '-'
  }

  lemma {:induction false} PatternIsSlug(s: string)
    ensures Pattern(s) <==> IsSlug(s)
  {
    if s != [] {
      AfterAlnumIs(s[1..]);
      if IsAlnum(s[0]) {
        assert s == [s[0]] + s[1..];
        Prepend(s[0], s[1..]);
      }
    }
  }

  lemma {:induction false} AfterAlnumIs(s: string)
    ensures AfterAlnum(s) <==> OpenEnded(s) && (s != [] ==> s[|s| - 1] != '-')
  {
    if s != [] {
      assert s == [s[0]] + s[1..];
      Prepend(s[0], s[1..]);
      if s[0] == '-' {
        PatternIsSlug(s[1..]);
      } else {
        AfterAlnumIs(s[1..]);
      }
    }
  }

  lemma {:induction false} Prepend(c: char, s: string)
    ensures OpenEnded([c] + s) <==> AllowedIn(c) && OpenEnded(s) && !(c == '-' && s != [] && s[0] == '-')
  {
    var all := [c] + s;
    assert forall i | 0 <= i < |s| :: all[i + 1] == s[i];
    if OpenEnded(all) {
      assert forall i | 0 <= i < |s| :: AllowedIn(s[i]) by {
        forall i | 0 <= i < |s| ensures AllowedIn(s[i]) { assert AllowedIn(all[i + 1]); }
      }
      forall i | 0 <= i < |s| - 1 ensures !(s[i] == '-' && s[i + 1] == '-') { assert !(all[i + 1] == '-' && all[i + 2] == '-'); }
      assert AllowedIn(all[0]);
      if s != [] { assert !(all[0] == '-' && all[1] == '-'); }
    }
  }

  /** Validation accepts exactly the slugs of at most 63 characters, and such a slug of at most 62 before a newline. */
  lemma {:induction false} AcceptedExactly(s: string)
    ensures Validate(s).Ok? <==> |s| <= LIMIT && (IsSlug(s) || (s != [] && s[|s| - 1] == '\n' && IsSlug(s[..|s| - 1])))
    ensures Validate(s).Ok? ==> (IsSlug(s) <==> s[|s| - 1] != '\n')
  {
    PatternIsSlug(s);
    if s != [] {
      PatternIsSlug(s[..|s| - 1]);
      assert IsSlug(s) ==> AllowedIn(s[|s| - 1]);
    }
  }

  /** So a validated slug need not be URL-safe. */
  lemma {:induction false} NewlineSlipsThrough()
    ensures Validate("a\n") == Ok(()) && !IsSlug("a\n")
  {
    var s := "a\n";
    assert s[..1] == "a" && s[1] == '\n';
    AcceptedExactly(s);
    PatternIsSlug("a");
    assert IsSlug("a");
    assert !AllowedIn(s[1]);
  }

  // ---------------------------------------------------------------------------
  // Hyphenation
  // ---------------------------------------------------------------------------

  lemma {:induction false} HyphenatedShape(s: string)
    ensures OpenEnded(Hyphenate(s))
    ensures Hyphenate(s) == [] <==> s == []
    ensures s != [] ==> (Hyphenate(s)[0] == '-' <==> !IsAlnum(s[0]))
    decreases |s|
  {
    if s != [] {
      if IsAlnum(s[0]) {
        HyphenatedShape(s[1..]);
        Prepend(s[0], Hyphenate(s[1..]));
      } else {
        var rest := StripLeft(s, NotAlnum);
        var k := StripLeftIs(s, NotAlnum);
        HyphenatedShape(rest);
        Prepend('-', Hyphenate(rest));
      }
    }
  }

  lemma {:induction false} HyphenateIsIdempotent(s: string)
    requires OpenEnded(s)
    ensures Hyphenate(s) == s
  {
    if s != [] {
      assert s == [s[0]] + s[1..];
      Prepend(s[0], s[1..]);
      HyphenateIsIdempotent(s[1..]);
      if !IsAlnum(s[0]) {
        assert s[1..] == [] || IsAlnum(s[1..][0]);
        assert StripLeft(s, NotAlnum) == s[1..];
      }
    }
  }

  /** After hyphenation, stripping every hyphen at the ends is stripping at most one. */
  lemma {:induction false} OneHyphenIsAll(s: string)
    requires OpenEnded(s)
    ensures StripHyphens(s) == StripOneHyphen(s)
    ensures StripHyphens(s) == [] || IsSlug(StripHyphens(s))
  {
    OneHyphenLeft(s);
    var t := StripLeft(s, IsHyphen);
    OneHyphenRight(t);
  }

  lemma {:induction false} OneHyphenLeft(s: string)
    requires OpenEnded(s)
    ensures StripLeft(s, IsHyphen) == if s != [] && s[0] == '-' then s[1..] else s
    ensures OpenEnded(StripLeft(s, IsHyphen))
    ensures StripLeft(s, IsHyphen) != [] ==> StripLeft(s, IsHyphen)[0] != '-'
  {
    if s != [] && s[0] == '-' {
      assert s == [s[0]] + s[1..];
      Prepend(s[0], s[1..]);
      assert StripLeft(s, IsHyphen) == StripLeft(s[1..], IsHyphen);
    }
  }

  lemma {:induction false} OneHyphenRight(s: string)
    requires OpenEnded(s) && (s != [] ==> s[0] != '-')
    ensures StripRight(s, IsHyphen) == if s != [] && s[|s| - 1] == '-' then s[..|s| - 1] else s
    ensures StripRight(s, IsHyphen) == [] || IsSlug(StripRight(s, IsHyphen))
  {
    if s != [] && s[|s| - 1] == '-' {
      var shorter := s[..|s| - 1];
      assert |s| >= 2 ==> s[|s| - 2] != '-';
      assert StripRight(s, IsHyphen) == StripRight(shorter, IsHyphen);
    }
  }

  // ---------------------------------------------------------------------------
  // The normal form
  // ---------------------------------------------------------------------------

  /** Normalisation gives a slug, and fails exactly when no letter or digit is left. */
  lemma {:induction false} NormalizedIsSlug(value: string, u: Unicode)
    ensures Normalize(value, u).Ok? ==> IsSlug(Normalize(value, u).value)
    ensures Normalize(value, u).Ok? ==>
              (Validate(Normalize(value, u).value).Ok? <==> |Normalize(value, u).value| <= LIMIT)
  {
    var lowered := Lower(Strip(value, u.isSpace), u);
    HyphenatedShape(lowered);
    OneHyphenIsAll(Hyphenate(lowered));
    if Normalize(value, u).Ok? {
      PatternIsSlug(Normalize(value, u).value);
    }
  }

  lemma {:induction false} LowerSlug(s: string, u: Unicode)
    requires Regular(u) && SlugChars(s)
    ensures Lower(s, u) == s && Strip(s, u.isSpace) == s
  {
    if s != [] {
      LowerSlug(s[1..], u);
      assert s == [s[0]] + s[1..] && AllowedIn(s[0]) && AllowedIn(s[|s| - 1]);
    }
  }

  /** A slug is a fixed point of normalisation. */
  lemma {:induction false} SlugIsFixed(s: string, u: Unicode)
    requires Regular(u) && IsSlug(s)
    ensures Normalize(s, u) == Ok(s)
  {
    LowerSlug(s, u);
    HyphenateIsIdempotent(s);
    OneHyphenIsAll(s);
  }

  lemma {:induction false} NormalizeIsIdempotent(value: string, u: Unicode)
    requires Regular(u) && Normalize(value, u).Ok?
    ensures Normalize(Normalize(value, u).value, u) == Normalize(value, u)
  {
    NormalizedIsSlug(value, u);
    SlugIsFixed(Normalize(value, u).value, u);
  }

  // ---------------------------------------------------------------------------
  // The frontend derivation
  // ---------------------------------------------------------------------------

  predicate NoAlnum(s: string) {
    forall i | 0 <= i < |s| :: !IsAlnum(s[i])
  }

  lemma {:induction false} LowerAppend(a: string, b: string, u: Unicode)
    ensures Lower(a + b, u) == Lower(a, u) + Lower(b, u)
  {
    if a == [] {
      assert a + b == b;
    } else {
      LowerAppend(a[1..], b, u);
      assert (a + b)[1..] == a[1..] + b;
    }
  }

  lemma {:induction false} SpacesLower(s: string, u: Unicode)
    requires Regular(u) && forall i | 0 <= i < |s| :: u.isSpace(s[i])
    ensures NoAlnum(Lower(s, u))
  {
    if s != [] {
      SpacesLower(s[1..], u);
      assert u.isSpace(s[0]);
    }
  }

  /** The letters and digits that survive, and where they are separated, do not depend on what surrounds them. */
  lemma {:induction false} HyphenateSurrounded(a: string, s: string, b: string)
    requires NoAlnum(a) && NoAlnum(b)
    ensures StripHyphens(Hyphenate(a + s + b)) == StripHyphens(Hyphenate(s))
  {
    HyphenatePrefix(a, s + b);
    assert a + (s + b) == a + s + b;
    HyphenateSuffix(s, b);
  }

  lemma {:induction false} HyphenatePrefix(a: string, s: string)
    requires NoAlnum(a)
    ensures StripHyphens(Hyphenate(a + s)) == StripHyphens(Hyphenate(s))
  {
    if a == [] {
      assert a + s == s;
    } else {
      var drop := NotAlnum;
      var all := a + s;
      SkipPrefix(a, s, drop);
      var rest := StripLeft(s, drop);
      assert Hyphenate(all) == ['-'] + Hyphenate(rest);
      StripLeadingHyphen(Hyphenate(rest));
      if s != [] && !IsAlnum(s[0]) {
        StripLeadingHyphen(Hyphenate(rest));
      } else {
        assert rest == s;
      }
    }
  }

  lemma {:induction false} SkipPrefix(a: string, s: string, drop: char -> bool)
    requires forall i | 0 <= i < |a| :: drop(a[i])
    ensures StripLeft(a + s, drop) == StripLeft(s, drop)
  {
    if a == [] {
      assert a + s == s;
    } else {
      SkipPrefix(a[1..], s, drop);
      assert (a + s)[1..] == a[1..] + s;
    }
  }

  lemma {:induction false} StripLeadingHyphen(s: string)
    ensures StripHyphens(['-'] + s) == StripHyphens(s)
  {
    assert (['-'] + s)[1..] == s;
  }

  lemma {:induction false} HyphenateSuffix(s: string, b: string)
    requires NoAlnum(b)
    ensures Hyphenate(s + b) == Hyphenate(s) || Hyphenate(s + b) == Hyphenate(s) + ['-']
    ensures StripHyphens(Hyphenate(s + b)) == StripHyphens(Hyphenate(s))
    decreases |s|
  {
    var drop := NotAlnum;
    if s == [] {
      assert s + b == b;
      if b != [] {
        SkipPrefix(b, [], drop);
        assert b + [] == b;
      }
    } else if IsAlnum(s[0]) {
      HyphenateSuffix(s[1..], b);
      assert (s + b)[1..] == s[1..] + b;
    } else {
      SuffixAfterSkip(s, b);
      HyphenateSuffix(StripLeft(s, drop), b);
      assert (s + b)[0] == s[0];
    }
    TrailingHyphen(Hyphenate(s));
  }

  lemma {:induction false} SuffixAfterSkip(s: string, b: string)
    requires NoAlnum(b)
    ensures StripLeft(s + b, NotAlnum) == if StripLeft(s, NotAlnum) == [] then [] else StripLeft(s, NotAlnum) + b
  {
    var k := StripLeftIs(s, NotAlnum);
    var rest := s[k..];
    if rest != [] {
      assert s + b == s[..k] + (rest + b);
      SkipPrefix(s[..k], rest + b, NotAlnum);
    } else {
      SkipPrefix(s + b, [], NotAlnum);
      assert s + b + [] == s + b;
    }
  }

  lemma {:induction false} TrailingHyphen(s: string)
    ensures StripHyphens(s + ['-']) == StripHyphens(s)
  {
    var drop := IsHyphen;
    if s != [] && drop(s[0]) {
      TrailingHyphen(s[1..]);
      assert (s + ['-'])[1..] == s[1..] + ['-'];
    } else if s != [] {
      assert (s + ['-'])[..|s|] == s;
    } else {
      assert StripLeft(['-'], drop) == [];
      assert s + ['-'] == ['-'];
    }
  }

  /** The form derives the backend's slug, and nothing exactly when the backend would raise. */
  lemma {:induction false} FrontendAgrees(name: string, u: Unicode)
    requires Regular(u)
    ensures Normalize(name, u) == if FrontendSlug(name, u) == [] then Err("ValueError") else Ok(FrontendSlug(name, u))
  {
    var k := StripLeftIs(name, u.isSpace);
    var m := StripRightIs(name[k..], u.isSpace);
    var a, s, b := name[..k], name[k..][..m], name[k..][m..];
    assert name == a + s + b;
    LowerAppend(a + s, b, u);
    LowerAppend(a, s, u);
    SpacesLower(a, u);
    SpacesLower(b, u);
    HyphenateSurrounded(Lower(a, u), Lower(s, u), Lower(b, u));
    HyphenatedShape(Lower(name, u));
    OneHyphenIsAll(Hyphenate(Lower(name, u)));
  }

  // ---------------------------------------------------------------------------
  // The words of a name
  // ---------------------------------------------------------------------------

  predicate AllAlnum(s: string) {
    forall i | 0 <= i < |s| :: IsAlnum(s[i])
  }

  /** Words of letters and digits, and something else between any two of them. */
  predicate Wordy(words: seq<string>, gaps: seq<string>) {
    && |gaps| == |words|
    && (forall i | 0 <= i < |words| :: words[i] != [] && AllAlnum(words[i]))
    && (forall i | 0 <= i < |gaps| :: NoAlnum(gaps[i]) && (i < |gaps| - 1 ==> gaps[i] != []))
  }

  /** Each word with the gap after it. */
  function Spread(words: seq<string>, gaps: seq<string>): string
    requires |gaps| == |words|
  {
    if words == [] then [] else words[0] + gaps[0] + Spread(words[1..], gaps[1..])
  }

  function Hyphened(words: seq<string>): string {
    if words == [] then [] else if |words| == 1 then words[0] else words[0] + "-" + Hyphened(words[1..])
  }

  /** Every text is some lead without letters or digits, then words and gaps. */
  lemma {:induction false} TextHasWords(s: string) returns (lead: string, words: seq<string>, gaps: seq<string>)
    ensures NoAlnum(lead) && Wordy(words, gaps) && s == lead + Spread(words, gaps)
  {
    if s == [] {
      lead, words, gaps := [], [], [];
    } else {
      lead, words, gaps := TextHasWords(s[1..]);
      assert s == [s[0]] + s[1..];
      if !IsAlnum(s[0]) {
        lead := [s[0]] + lead;
      } else if lead != [] || words == [] {
        words, gaps, lead := [[s[0]]] + words, [lead] + gaps, [];
        assert words[1..] + [] == words[1..] && gaps[1..] + [] == gaps[1..];
      } else {
        words := [[s[0]] + words[0]] + words[1..];
      }
    }
  }

  lemma {:induction false} HyphenateWord(w: string, s: string)
    requires AllAlnum(w)
    ensures Hyphenate(w + s) == w + Hyphenate(s)
  {
    if w == [] {
      assert w + s == s;
    } else {
      HyphenateWord(w[1..], s);
      assert (w + s)[1..] == w[1..] + s && w == [w[0]] + w[1..];
    }
  }

  lemma {:induction false} HyphenateGap(gap: string, s: string)
    requires NoAlnum(gap) && gap != [] && (s != [] ==> IsAlnum(s[0]))
    ensures Hyphenate(gap + s) == "-" + Hyphenate(s)
  {
    SkipPrefix(gap, s, NotAlnum);
    assert (gap + s)[0] == gap[0];
  }

  lemma {:induction false} HyphenateSpread(words: seq<string>, gaps: seq<string>)
    requires Wordy(words, gaps) && words != []
    ensures Hyphenate(Spread(words, gaps)) == Hyphened(words) + if gaps[|gaps| - 1] == [] then [] else ['-']
  {
    var rest := Spread(words[1..], gaps[1..]);
    HyphenateWord(words[0], gaps[0] + rest);
    assert words[0] + gaps[0] + rest == words[0] + (gaps[0] + rest);
    if |words| == 1 {
      assert gaps[0] + rest == gaps[0];
      if gaps[0] != [] {
        HyphenateGap(gaps[0], []);
        assert gaps[0] + [] == gaps[0];
      }
    } else {
      assert rest[0] == words[1][0];
      HyphenateGap(gaps[0], rest);
      HyphenateSpread(words[1..], gaps[1..]);
    }
  }

  lemma {:induction false} HyphenedIsSlug(words: seq<string>, gaps: seq<string>)
    requires Wordy(words, gaps) && words != []
    ensures Hyphened(words) != [] && StripHyphens(Hyphened(words)) == Hyphened(words)
  {
    HyphenedEnds(words, gaps);
    var s := Hyphened(words);
    assert StripLeft(s, IsHyphen) == s && StripRight(s, IsHyphen) == s;
  }

  lemma {:induction false} HyphenedEnds(words: seq<string>, gaps: seq<string>)
    requires Wordy(words, gaps) && words != []
    ensures var s := Hyphened(words); s != [] && IsAlnum(s[0]) && IsAlnum(s[|s| - 1])
  {
    assert IsAlnum(words[0][0]) && IsAlnum(words[0][|words[0]| - 1]);
    if |words| > 1 { HyphenedEnds(words[1..], gaps[1..]); }
  }

  /** The slug of a name is its lower-case words joined by hyphens, and a name without any is refused. */
  lemma {:induction false} SlugJoinsWords(name: string, u: Unicode, lead: string, words: seq<string>, gaps: seq<string>)
    requires Regular(u) && NoAlnum(lead) && Wordy(words, gaps) && Lower(name, u) == lead + Spread(words, gaps)
    ensures Normalize(name, u) == if words == [] then Err("ValueError") else Ok(Hyphened(words))
  {
    FrontendAgrees(name, u);
    HyphenatedShape(Lower(name, u));
    OneHyphenIsAll(Hyphenate(Lower(name, u)));
    HyphenatePrefix(lead, Spread(words, gaps));
    if words != [] {
      HyphenateSpread(words, gaps);
      TrailingHyphen(Hyphened(words));
      assert Hyphened(words) + [] == Hyphened(words);
      HyphenedIsSlug(words, gaps);
    }
  }
}
