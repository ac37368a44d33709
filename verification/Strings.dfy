/** Stripping the characters that satisfy a test from the ends of a string. */
module Strings {
  function StripLeft(s: string, drop: char -> bool): (r: string)
    ensures |r| <= |s| && (s != [] && drop(s[0]) ==> |r| < |s|)
  {
    if s != [] && drop(s[0]) then StripLeft(s[1..], drop) else s
  }

  function StripRight(s: string, drop: char -> bool): string {
    if s != [] && drop(s[|s| - 1]) then StripRight(s[..|s| - 1], drop) else s
  }

  function Strip(s: string, drop: char -> bool): string {
    StripRight(StripLeft(s, drop), drop)
  }

  lemma {:induction false} StripLeftIs(s: string, drop: char -> bool) returns (k: nat)
    ensures k <= |s| && StripLeft(s, drop) == s[k..]
    ensures forall i | 0 <= i < k :: drop(s[i])
    ensures k < |s| ==> !drop(s[k])
  {
    if s != [] && drop(s[0]) {
      var j := StripLeftIs(s[1..], drop);
      k := j + 1;
      assert forall i | 1 <= i < k :: s[i] == s[1..][i - 1];
    } else {
      k := 0;
    }
  }

  lemma {:induction false} StripRightIs(s: string, drop: char -> bool) returns (k: nat)
    ensures k <= |s| && StripRight(s, drop) == s[..k]
    ensures forall i | k <= i < |s| :: drop(s[i])
    ensures k > 0 ==> !drop(s[k - 1])
  {
    if s != [] && drop(s[|s| - 1]) {
      k := StripRightIs(s[..|s| - 1], drop);
      assert s[..|s| - 1][..k] == s[..k];
    } else {
      k := |s|;
    }
  }
}
