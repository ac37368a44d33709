/**
  The compliance score: (passes + partials / 2) / assessed, rounded half to even to four
  decimals. A score is counted here in ten-thousandths, as an exact integer.
 */
module Score {
  import opened Wrappers

  const SCALE := 10000

  predicate Assessed(status: string) {
    status in {"PASS", "PARTIAL", "FAIL"}
  }

  function Count(statuses: seq<string>, status: string): (n: nat)
    ensures n <= |statuses|
  {
    if statuses == [] then 0
    else Count(statuses[..|statuses| - 1], status) + if statuses[|statuses| - 1] == status then 1 else 0
  }

  function AssessedCount(statuses: seq<string>): nat {
    Count(statuses, "PASS") + Count(statuses, "PARTIAL") + Count(statuses, "FAIL")
  }

  /** Twice the numerator of the score. */
  function Points(statuses: seq<string>): nat {
    2 * Count(statuses, "PASS") + Count(statuses, "PARTIAL")
  }

  /** num / den rounded to the nearest integer, ties to even. */
  function RoundHalfEven(num: nat, den: nat): (r: nat)
    requires den > 0
  {
    var q, rest := num / den, num % den;
    if 2 * rest < den || (2 * rest == den && q % 2 == 0) then q else q + 1
  }

  function ScoreOf(statuses: seq<string>): Option<nat> {
    var n := AssessedCount(statuses);
    if n == 0 then None else Some(RoundHalfEven(SCALE * Points(statuses), 2 * n))
  }

  // ---------------------------------------------------------------------------
  // Rounding
  // ---------------------------------------------------------------------------

  lemma {:induction false} RoundIsNearest(num: nat, den: nat)
    requires den > 0
    ensures -(den as int) <= 2 * (RoundHalfEven(num, den) * den - num) <= den
    ensures 2 * (RoundHalfEven(num, den) * den - num) in {-(den as int), den as int} ==> RoundHalfEven(num, den) % 2 == 0
  {
    var q, rest := num / den, num % den;
    assert num == q * den + rest;
    assert (q + 1) * den == q * den + den;
  }

  /** Being nearest, ties to even, determines the result. */
  lemma {:induction false} NearestIsUnique(num: nat, den: nat, r: nat)
    requires den > 0 && -(den as int) <= 2 * (r * den - num) <= den
    requires 2 * (r * den - num) in {-(den as int), den as int} ==> r % 2 == 0
    ensures r == RoundHalfEven(num, den)
  {
    RoundIsNearest(num, den);
    NearestAgree(num, den, r, RoundHalfEven(num, den));
  }

  lemma {:induction false} NearestAgree(num: nat, den: nat, r: nat, s: nat)
    requires den > 0 && -(den as int) <= 2 * (r * den - num) <= den && -(den as int) <= 2 * (s * den - num) <= den
    requires 2 * (r * den - num) in {-(den as int), den as int} ==> r % 2 == 0
    requires 2 * (s * den - num) in {-(den as int), den as int} ==> s % 2 == 0
    ensures r == s
  {
    assert r * den - s * den == (r - s) * den;
    Multiples(r - s, den);
  }

  lemma {:induction false} Multiples(k: int, den: int)
    requires den > 0
    ensures k >= 1 ==> k * den >= den
    ensures k >= 2 ==> k * den > den
    ensures k <= -1 ==> k * den <= -den
    ensures k <= -2 ==> k * den < -den
  {
    assert (k - 1) * den == k * den - den && (k + 1) * den == k * den + den;
  }

  lemma {:induction false} RoundIsMonotone(a: nat, b: nat, den: nat)
    requires den > 0 && a <= b
    ensures RoundHalfEven(a, den) <= RoundHalfEven(b, den)
  {
    QuotientIsMonotone(a, b, den);
  }

  /** The larger number has the larger quotient, or the same quotient and the larger remainder. */
  lemma {:induction false} QuotientIsMonotone(a: nat, b: nat, den: nat)
    requires den > 0 && a <= b
    ensures a / den < b / den || (a / den == b / den && a % den <= b % den)
  {
    var p, q := a / den, b / den;
    assert a == p * den + a % den && b == q * den + b % den;
    assert (p - q) * den == p * den - q * den;
    Multiples(p - q, den);
  }

  // ---------------------------------------------------------------------------
  // The score of a list of statuses
  // ---------------------------------------------------------------------------

  /** The method's running counts are the tally. */
  method ComputeScore(statuses: seq<string>) returns (score: Option<nat>)
    ensures score == ScoreOf(statuses)
  {
    var passed, partial, assessed := 0, 0, 0;
    for i := 0 to |statuses|
      invariant passed == Count(statuses[..i], "PASS") && partial == Count(statuses[..i], "PARTIAL")
      invariant assessed == AssessedCount(statuses[..i])
    {
      assert statuses[..i + 1][..i] == statuses[..i];
      if Assessed(statuses[i]) {
        assessed := assessed + 1;
        if statuses[i] == "PASS" { passed := passed + 1; }
        if statuses[i] == "PARTIAL" { partial := partial + 1; }
      }
    }
    assert statuses[..|statuses|] == statuses;
    score := if assessed == 0 then None else Some(RoundHalfEven(SCALE * (2 * passed + partial), 2 * assessed));
  }

  lemma {:induction false} CountZero(statuses: seq<string>, status: string)
    ensures Count(statuses, status) == 0 <==> status !in statuses
  {
    if statuses != [] {
      var k := |statuses| - 1;
      CountZero(statuses[..k], status);
      assert statuses == statuses[..k] + [statuses[k]];
    }
  }

  /** Absent exactly when nothing is assessed. */
  lemma {:induction false} AbsentExactlyWhenNothingAssessed(statuses: seq<string>)
    ensures ScoreOf(statuses).None? <==> forall i | 0 <= i < |statuses| :: !Assessed(statuses[i])
  {
    CountZero(statuses, "PASS");
    CountZero(statuses, "PARTIAL");
    CountZero(statuses, "FAIL");
  }

  /** Between 0 and 1, and within 1/20000 of the exact ratio Points / (2 * assessed). */
  lemma {:induction false} ScoreIsAccurate(statuses: seq<string>)
    requires ScoreOf(statuses).Some?
    ensures var n, score := AssessedCount(statuses), ScoreOf(statuses).value;
            && score <= SCALE
            && -(2 * n as int) <= 2 * (score * (2 * n) - SCALE * Points(statuses)) <= 2 * n
  {
    var n, score := AssessedCount(statuses), ScoreOf(statuses).value;
    RoundIsNearest(SCALE * Points(statuses), 2 * n);
    RoundIsMonotone(SCALE * Points(statuses), SCALE * (2 * n), 2 * n);
    NearestIsUnique(SCALE * (2 * n), 2 * n, SCALE);
  }

  /** Exactly which tallies round to a full score: those whose lost points are at most assessed / 10000. */
  lemma {:induction false} FullScoreExactly(statuses: seq<string>)
    requires ScoreOf(statuses).Some?
    ensures var n := AssessedCount(statuses);
            ScoreOf(statuses).value == SCALE <==> SCALE * (2 * n - Points(statuses)) <= n
  {
    var n, num := AssessedCount(statuses), SCALE * Points(statuses);
    RoundIsNearest(num, 2 * n);
    if SCALE * (2 * n - Points(statuses)) <= n {
      NearestIsUnique(num, 2 * n, SCALE);
    }
  }

  lemma {:induction false} ZeroScoreExactly(statuses: seq<string>)
    requires ScoreOf(statuses).Some?
    ensures ScoreOf(statuses).value == 0 <==> SCALE * Points(statuses) <= AssessedCount(statuses)
  {
    var n, num := AssessedCount(statuses), SCALE * Points(statuses);
    RoundIsNearest(num, 2 * n);
    if num <= n {
      NearestIsUnique(num, 2 * n, 0);
    }
  }

  /** With fewer than 10000 assessed rules the extremes are exact. */
  lemma {:induction false} ExtremesAreExact(statuses: seq<string>)
    requires 0 < AssessedCount(statuses) < SCALE
    ensures ScoreOf(statuses) == Some(SCALE) <==> "FAIL" !in statuses && "PARTIAL" !in statuses
    ensures ScoreOf(statuses) == Some(0) <==> "PASS" !in statuses && "PARTIAL" !in statuses
  {
    FullScoreExactly(statuses);
    ZeroScoreExactly(statuses);
    CountZero(statuses, "PASS");
    CountZero(statuses, "PARTIAL");
    CountZero(statuses, "FAIL");
  }

  function Rank(status: string): int {
    match status
    case "FAIL" => 0
    case "PARTIAL" => 1
    case "PASS" => 2
    case _ => -1
  }

  /** b is a with some rules improved from FAIL to PARTIAL to PASS. */
  ghost predicate Improves(a: seq<string>, b: seq<string>) {
    |a| == |b| && forall i | 0 <= i < |a| :: a[i] == b[i] || (Assessed(a[i]) && Assessed(b[i]) && Rank(a[i]) <= Rank(b[i]))
  }

  lemma {:induction false} ImprovedTally(a: seq<string>, b: seq<string>)
    requires Improves(a, b)
    ensures AssessedCount(a) == AssessedCount(b) && Points(a) <= Points(b)
  {
    if a != [] {
      var k := |a| - 1;
      ImprovedTally(a[..k], b[..k]);
    }
  }

  lemma {:induction false} ImprovingNeverLowers(a: seq<string>, b: seq<string>)
    requires Improves(a, b)
    ensures ScoreOf(a).Some? <==> ScoreOf(b).Some?
    ensures ScoreOf(a).Some? ==> ScoreOf(a).value <= ScoreOf(b).value
  {
    ImprovedTally(a, b);
    if AssessedCount(a) > 0 {
      RoundIsMonotone(SCALE * Points(a), SCALE * Points(b), 2 * AssessedCount(a));
    }
  }
}
