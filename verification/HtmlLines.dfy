/**
  The lines of a converted reply: the rewrites keep exactly the gaps and line breaks between
  characters that are not whitespace, and the line breaks come from the tags and the text itself.
 */
module HtmlLines {
  import opened HtmlText
  import opened Strings

  /** A character of some kind, a newline or any whitespace, stands after exactly n characters that are not whitespace. */
  ghost predicate Broken(s: string, n: int, isSpace: char -> bool, mark: char -> bool) {
    exists i :: MarkAt(s, i, n, isSpace, mark)
  }

  predicate MarkAt(s: string, i: int, n: int, isSpace: char -> bool, mark: char -> bool) {
    0 <= i < |s| && mark(s[i]) && |Ink(s[..i], isSpace)| == n
  }

  predicate HasMark(s: string, mark: char -> bool) {
    exists i :: 0 <= i < |s| && mark(s[i])
  }

  /** Newlines are of this kind, only whitespace is, and blanks are all alike. */
  ghost predicate Separator(isSpace: char -> bool, mark: char -> bool) {
    mark('\n') && (mark(' ') <==> mark('\t')) && forall c | mark(c) :: isSpace(c)
  }

  lemma {:induction false} BrokenAppend(a: string, b: string, n: int, isSpace: char -> bool, mark: char -> bool)
    ensures Broken(a + b, n, isSpace, mark) <==> Broken(a, n, isSpace, mark) || Broken(b, n - |Ink(a, isSpace)|, isSpace, mark)
  {
    var m := n - |Ink(a, isSpace)|;
    if i :| MarkAt(a, i, n, isSpace, mark) {
      assert (a + b)[..i] == a[..i];
      assert MarkAt(a + b, i, n, isSpace, mark);
    }
    if i :| MarkAt(b, i, m, isSpace, mark) {
      InkAppend(a, b[..i], isSpace);
      assert (a + b)[..|a| + i] == a + b[..i];
      assert MarkAt(a + b, |a| + i, n, isSpace, mark);
    }
    if i :| MarkAt(a + b, i, n, isSpace, mark) {
      if i < |a| {
        assert (a + b)[..i] == a[..i];
        assert MarkAt(a, i, n, isSpace, mark);
      } else {
        InkAppend(a, b[..i - |a|], isSpace);
        assert (a + b)[..i] == a + b[..i - |a|];
        assert MarkAt(b, i - |a|, m, isSpace, mark);
      }
    }
  }

  predicate AllSpace(s: string, isSpace: char -> bool) {
    forall i | 0 <= i < |s| :: isSpace(s[i])
  }

  lemma {:induction false} SpaceBreaks(s: string, n: int, isSpace: char -> bool, mark: char -> bool)
    requires AllSpace(s, isSpace)
    ensures Broken(s, n, isSpace, mark) <==> n == 0 && HasMark(s, mark)
  {
    forall i | 0 <= i <= |s| ensures Ink(s[..i], isSpace) == [] { NoInk(s[..i], isSpace); }
    if i :| 0 <= i < |s| && mark(s[i]) { assert MarkAt(s, i, 0, isSpace, mark); }
  }

  /** Keeping the front, or replacing one spacing block by another where both or neither have such a character. */
  lemma {:induction false} SwapBreaks(a: string, b: string, s: string, t: string, n: int, isSpace: char -> bool,
                                      mark: char -> bool)
    requires a == b || (AllSpace(a, isSpace) && AllSpace(b, isSpace) && (HasMark(a, mark) <==> HasMark(b, mark)))
    requires forall m :: Broken(s, m, isSpace, mark) <==> Broken(t, m, isSpace, mark)
    ensures Broken(a + s, n, isSpace, mark) <==> Broken(b + t, n, isSpace, mark)
  {
    BrokenAppend(a, s, n, isSpace, mark);
    BrokenAppend(b, t, n, isSpace, mark);
    if a != b {
      SpaceBreaks(a, n, isSpace, mark);
      SpaceBreaks(b, n, isSpace, mark);
      NoInk(a, isSpace);
      NoInk(b, isSpace);
    }
  }

  lemma {:induction false} DropKeepsBreaks(s: string, n: int, isSpace: char -> bool, mark: char -> bool)
    requires Spacing(isSpace) && Separator(isSpace, mark)
    ensures Broken(DropTrailingBlanks(s), n, isSpace, mark) <==> Broken(s, n, isSpace, mark)
    decreases |s|
  {
    if s != [] {
      var (k, front) := DropStep(s);
      var rest := s[k..];
      DropSplits(s);
      forall m ensures Broken(DropTrailingBlanks(rest), m, isSpace, mark) <==> Broken(rest, m, isSpace, mark) {
        DropKeepsBreaks(rest, m, isSpace, mark);
      }
      if front != s[..k] { assert s[..k][k - 1] == '\n' && mark(front[0]); }
      SwapBreaks(front, s[..k], DropTrailingBlanks(rest), rest, n, isSpace, mark);
      assert s == s[..k] + rest;
    }
  }

  lemma {:induction false} LimitKeepsBreaks(s: string, n: int, isSpace: char -> bool, mark: char -> bool)
    requires Spacing(isSpace) && Separator(isSpace, mark)
    ensures Broken(LimitNewlines(s), n, isSpace, mark) <==> Broken(s, n, isSpace, mark)
    decreases |s|
  {
    if s != [] {
      var (k, front) := LimitStep(s);
      forall m ensures Broken(LimitNewlines(s[k..]), m, isSpace, mark) <==> Broken(s[k..], m, isSpace, mark) {
        LimitKeepsBreaks(s[k..], m, isSpace, mark);
      }
      if front != s[..k] { assert mark(s[..k][0]) && mark(front[0]); }
      SwapBreaks(front, s[..k], LimitNewlines(s[k..]), s[k..], n, isSpace, mark);
      assert s == s[..k] + s[k..];
    }
  }

  lemma {:induction false} CollapseKeepsBreaks(s: string, n: int, isSpace: char -> bool, mark: char -> bool)
    requires Spacing(isSpace) && Separator(isSpace, mark)
    ensures Broken(CollapseBlanks(s), n, isSpace, mark) <==> Broken(s, n, isSpace, mark)
    decreases |s|
  {
    if s != [] {
      var (k, front) := CollapseStep(s);
      forall m ensures Broken(CollapseBlanks(s[k..]), m, isSpace, mark) <==> Broken(s[k..], m, isSpace, mark) {
        CollapseKeepsBreaks(s[k..], m, isSpace, mark);
      }
      if front != s[..k] {
        assert s[..k][0] == s[0] && IsBlank(s[0]) && front[0] == ' ';
        assert forall i | 0 <= i < k :: s[..k][i] == s[i] && IsBlank(s[i]);
      }
      SwapBreaks(front, s[..k], CollapseBlanks(s[k..]), s[k..], n, isSpace, mark);
      assert s == s[..k] + s[k..];
    }
  }

  /** Stripping loses only breaks before the first or after the last of these characters. */
  lemma {:induction false} StripKeepsBreaks(t: string, n: int, isSpace: char -> bool, mark: char -> bool)
    requires 0 < n < |Ink(t, isSpace)|
    ensures Broken(Strip(t, isSpace), n, isSpace, mark) <==> Broken(t, n, isSpace, mark)
  {
    var lo, hi := StripIsSlice(t, isSpace);
    var left, right := t[..lo], t[hi..];
    assert t[..hi] == left + t[lo..hi] && t == t[..hi] + right;
    InkAppend(left + t[lo..hi], right, isSpace);
    InkAppend(left, t[lo..hi], isSpace);
    NoInk(left, isSpace);
    NoInk(right, isSpace);
    SpaceBreaks(left, n, isSpace, mark);
    BrokenAppend(left, t[lo..hi], n, isSpace, mark);
    BrokenAppend(left + t[lo..hi], right, n, isSpace, mark);
    SpaceBreaks(right, n - |Ink(t, isSpace)|, isSpace, mark);
  }

  /** The pipeline keeps exactly the line breaks, and the gaps, between characters that are not whitespace. */
  lemma {:induction false} CleanKeepsBreaks(s: string, n: int, isSpace: char -> bool, mark: char -> bool)
    requires Spacing(isSpace) && Separator(isSpace, mark) && 0 < n < |Ink(s, isSpace)|
    ensures Broken(Clean(s, isSpace), n, isSpace, mark) <==> Broken(s, n, isSpace, mark)
  {
    var dropped := DropTrailingBlanks(s);
    var limited := LimitNewlines(dropped);
    var collapsed := CollapseBlanks(limited);
    DropKeepsInk(s, isSpace);
    LimitKeepsInk(dropped, isSpace);
    CollapseKeepsInk(limited, isSpace);
    DropKeepsBreaks(s, n, isSpace, mark);
    LimitKeepsBreaks(dropped, n, isSpace, mark);
    CollapseKeepsBreaks(limited, n, isSpace, mark);
    StripKeepsBreaks(collapsed, n, isSpace, mark);
  }

  /** Two neighbouring ones are apart, by whitespace of any kind, exactly when they were. */
  lemma {:induction false} GapsExactly(s: string, n: int, isSpace: char -> bool)
    requires Spacing(isSpace) && 0 < n < |Ink(s, isSpace)|
    ensures Broken(Clean(s, isSpace), n, isSpace, isSpace) <==> Broken(s, n, isSpace, isSpace)
  {
    CleanKeepsBreaks(s, n, isSpace, isSpace);
  }

  // ---------------------------------------------------------------------------
  // Where the line breaks come from
  // ---------------------------------------------------------------------------

  /** Tags that put what follows them on a new line. */
  predicate StartsLine(e: Event) {
    || (e.StartTag? && (e.tag in BREAK_TAGS || e.tag in LIST_ITEM_TAGS || e.tag in BLOCK_TAGS))
    || (e.EndTag? && (e.tag in BLOCK_TAGS || e.tag in LIST_ITEM_TAGS))
  }

  /** The event breaks the line n visible characters on: a tag there, or a newline in the text itself. */
  ghost predicate BreaksLine(e: Event, n: int, isSpace: char -> bool) {
    if e.Data? then Broken(e.text, n, isSpace, IsNewline) else StartsLine(e) && n == 0
  }

  ghost predicate SomeBreak(events: seq<Event>, n: int, isSpace: char -> bool) {
    exists k :: BreakAt(events, k, n, isSpace)
  }

  ghost predicate BreakAt(events: seq<Event>, k: int, n: int, isSpace: char -> bool) {
    0 <= k < |events| && BreaksLine(events[k], n - |DataInk(events[..k], isSpace)|, isSpace)
  }

  /** What an event adds to the text. */
  function TextOf(e: Event): string {
    if Part(e) == [] then [] else Part(e)[0]
  }

  lemma {:induction false} TextGrows(parts: seq<string>, e: Event)
    ensures Joined(parts + Part(e)) == Joined(parts) + TextOf(e)
  {
    if Part(e) == [] {
      assert parts + [] == parts;
    } else {
      JoinedAppend(parts, Part(e)[0]);
    }
  }

  lemma {:induction false} EventBreaks(e: Event, m: int, isSpace: char -> bool)
    requires Spacing(isSpace)
    ensures Broken(TextOf(e), m, isSpace, IsNewline) <==> BreaksLine(e, m, isSpace)
  {
    if !e.Data? && StartsLine(e) { MarkerBreaks(TextOf(e), m, isSpace); }
  }

  lemma {:induction false} TextBreaks(text: string, e: Event, n: int, seen: nat, isSpace: char -> bool)
    requires Spacing(isSpace) && |Ink(text, isSpace)| == seen
    ensures Broken(text + TextOf(e), n, isSpace, IsNewline)
       <==> Broken(text, n, isSpace, IsNewline) || BreaksLine(e, n - seen, isSpace)
  {
    BrokenAppend(text, TextOf(e), n, isSpace, IsNewline);
    EventBreaks(e, n - seen, isSpace);
  }

  lemma {:induction false} MarkerBreaks(p: string, m: int, isSpace: char -> bool)
    requires Spacing(isSpace) && p in {"\n", "\n\n", BULLET}
    ensures Broken(p, m, isSpace, IsNewline) <==> m == 0
  {
    if p == BULLET {
      assert p[..0] == [];
      assert MarkAt(p, 0, 0, isSpace, IsNewline);
      if i :| MarkAt(p, i, m, isSpace, IsNewline) { assert i == 0; }
    } else {
      SpaceBreaks(p, m, isSpace, IsNewline);
      assert p[0] == '\n';
    }
  }

  /** The same, from the last event back. */
  ghost predicate BreakWithin(events: seq<Event>, n: int, isSpace: char -> bool) {
    events != [] &&
    (BreakWithin(events[..|events| - 1], n, isSpace) || BreakAt(events, |events| - 1, n, isSpace))
  }

  lemma {:induction false} PartsBreak(events: seq<Event>, n: int, isSpace: char -> bool)
    requires Spacing(isSpace) && !isSpace('\U{2022}')
    ensures Broken(Joined(Parts(events)), n, isSpace, IsNewline) <==> BreakWithin(events, n, isSpace)
  {
    if events != [] {
      var k := |events| - 1;
      PartsBreak(events[..k], n, isSpace);
      PartsInk(events[..k], isSpace);
      TextGrows(Parts(events[..k]), events[k]);
      TextBreaks(Joined(Parts(events[..k])), events[k], n, |DataInk(events[..k], isSpace)|, isSpace);
    }
  }

  lemma {:induction false} BreakAtPrefix(events: seq<Event>, k: nat, n: int, isSpace: char -> bool)
    requires k < |events| - 1
    ensures BreakAt(events[..|events| - 1], k, n, isSpace) <==> BreakAt(events, k, n, isSpace)
  {
    assert events[..|events| - 1][..k] == events[..k];
  }

  lemma {:induction false} WithinAt(events: seq<Event>, n: int, isSpace: char -> bool) returns (k: nat)
    requires BreakWithin(events, n, isSpace)
    ensures BreakAt(events, k, n, isSpace)
  {
    if BreakAt(events, |events| - 1, n, isSpace) {
      k := |events| - 1;
    } else {
      k := WithinAt(events[..|events| - 1], n, isSpace);
      BreakAtPrefix(events, k, n, isSpace);
    }
  }

  lemma {:induction false} AtWithin(events: seq<Event>, k: nat, n: int, isSpace: char -> bool)
    requires BreakAt(events, k, n, isSpace)
    ensures BreakWithin(events, n, isSpace)
    decreases |events|
  {
    if k < |events| - 1 {
      BreakAtPrefix(events, k, n, isSpace);
      AtWithin(events[..|events| - 1], k, n, isSpace);
    }
  }

  /**
    In the text of a reply, two neighbouring characters that are not whitespace are on different lines if and only if
    between them the reply has a line break, a block or list item tag, opening or closing, or a newline of its own.
   */
  lemma {:induction false} LinesExactly(events: seq<Event>, n: int, isSpace: char -> bool)
    requires Spacing(isSpace) && !isSpace('\U{2022}') && 0 < n < |DataInk(events, isSpace)|
    ensures Broken(Clean(Joined(Parts(events)), isSpace), n, isSpace, IsNewline) <==> SomeBreak(events, n, isSpace)
  {
    PartsInk(events, isSpace);
    CleanKeepsBreaks(Joined(Parts(events)), n, isSpace, IsNewline);
    PartsBreak(events, n, isSpace);
    if BreakWithin(events, n, isSpace) {
      var k := WithinAt(events, n, isSpace);
    }
    if k: nat :| BreakAt(events, k, n, isSpace) {
      AtWithin(events, k, n, isSpace);
    }
  }

  /** In particular the text before such a tag and the text after it end up on different lines. */
  lemma {:induction false} TagSeparatesLines(events: seq<Event>, k: nat, isSpace: char -> bool)
      returns (above: string, below: string)
    requires Spacing(isSpace) && !isSpace('\U{2022}') && k < |events| && StartsLine(events[k])
    requires 0 < |DataInk(events[..k], isSpace)| < |DataInk(events, isSpace)|
    ensures Clean(Joined(Parts(events)), isSpace) == above + "\n" + below
    ensures Ink(above, isSpace) == DataInk(events[..k], isSpace)
    ensures Ink(above, isSpace) + Ink(below, isSpace) == DataInk(events, isSpace)
  {
    var n := |DataInk(events[..k], isSpace)|;
    assert BreakAt(events, k, n, isSpace);
    LinesExactly(events, n, isSpace);
    TagsKeepInk(events, isSpace);
    above, below := BreakSplits(Clean(Joined(Parts(events)), isSpace), n, isSpace);
    DataInkPrefix(events, k, isSpace);
    SamePrefix(Ink(above, isSpace), Ink(below, isSpace), DataInk(events[..k], isSpace), DataInk(events, isSpace));
  }

  lemma {:induction false} BreakSplits(text: string, n: int, isSpace: char -> bool)
      returns (above: string, below: string)
    requires Spacing(isSpace) && Broken(text, n, isSpace, IsNewline)
    ensures text == above + "\n" + below && |Ink(above, isSpace)| == n
    ensures Ink(text, isSpace) == Ink(above, isSpace) + Ink(below, isSpace)
  {
    var i :| MarkAt(text, i, n, isSpace, IsNewline);
    above, below := text[..i], text[i + 1..];
    assert text[i..] == ['\n'] + below && text == above + text[i..];
    InkAppend(above, text[i..], isSpace);
    InkFront('\n', below, isSpace);
  }

  lemma {:induction false} SamePrefix(a: string, b: string, c: string, whole: string)
    requires a + b == whole && c <= whole && |a| == |c|
    ensures a == c
  {
    assert a == whole[..|a|] && c == whole[..|c|];
  }

  lemma {:induction false} DataInkPrefix(events: seq<Event>, k: nat, isSpace: char -> bool)
    requires k <= |events|
    ensures DataInk(events[..k], isSpace) <= DataInk(events, isSpace)
    decreases |events|
  {
    if k == |events| {
      assert events[..k] == events;
    } else {
      var before := events[..|events| - 1];
      DataInkPrefix(before, k, isSpace);
      assert before[..k] == events[..k];
    }
  }
}
