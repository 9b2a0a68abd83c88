/** The results screen's arithmetic: the rounded percentage of correct answers
    and the five-tier classification picked from it (`getScoreData`). */
module Scoring {

  /** The five grades, best first. */
  datatype Grade =
    | MinimalAcceptableResult
    | MinimalTolerableFailure
    | InsufficientSuccess
    | DismalResult
    | ExceptionalFailure

  /** The record `getScoreData` returns. Its heading and message are the
      texts of its grade (Label, Message); its display colour is left out. */
  datatype ScoreData = ScoreData(grade: Grade, pass: bool)

  /** The heading shown for a grade. */
  function Label(g: Grade): string {
    match g
    case MinimalAcceptableResult => "MINIMAL ACCEPTABLE RESULT"
    case MinimalTolerableFailure => "MINIMAL TOLERABLE FAILURE"
    case InsufficientSuccess => "INSUFFICIENT SUCCESS"
    case DismalResult => "DISMAL RESULT"
    case ExceptionalFailure => "EXCEPTIONAL FAILURE"
  }

  /** The sentence shown under a grade. */
  function Message(g: Grade): string {
    match g
    case MinimalAcceptableResult =>
      "Score engravers will be dispatched. Please shower before arrival."
    case MinimalTolerableFailure =>
      "Additional study sessions will be enforced by armed tutors."
    case InsufficientSuccess =>
      "Please report for surgical exclusion."
    case DismalResult =>
      "We are both angry and disappointed. Please mark voluntary toes with the appropriate marker."
    case ExceptionalFailure =>
      "Tutors will be dispatched. Please shave the areas listed in the student manual on page 145 to make electrode placement easier."
  }

  /** Position of a grade in the order worst (0) to best (4). */
  function Rank(g: Grade): nat {
    match g
    case ExceptionalFailure => 0
    case DismalResult => 1
    case InsufficientSuccess => 2
    case MinimalTolerableFailure => 3
    case MinimalAcceptableResult => 4
  }

  /** `Math.round(score / n * 100)` in integers: the percentage rounded to the
      nearest whole number, halves upwards. The result is within one half of
      100 * score / n, and a score of at most n gives at most 100. */
  function Percent(score: nat, n: nat): (pct: nat)
    requires n > 0
    ensures n * (2 * pct - 1) <= 200 * score < n * (2 * pct + 1)
    ensures score <= n ==> pct <= 100
  {
    var q := (200 * score + n) / (2 * n);
    RoundedQuotient(score, n, q);
    q
  }

  /** The proof behind Percent's contract. */
  lemma RoundedQuotient(score: nat, n: nat, q: int)
    requires n > 0 && q == (200 * score + n) / (2 * n)
    ensures q >= 0
    ensures n * (2 * q - 1) <= 200 * score < n * (2 * q + 1)
    ensures score <= n ==> q <= 100
  {
    var m, d := 200 * score + n, 2 * n;
    assert d * q <= m < d * q + d;
    assert n * (2 * q - 1) == d * q - n;
    assert n * (2 * q + 1) == d * q + n;
    if score <= n {
      assert m < d * 101;
      PositiveFactorBound(d, q, 101);
    }
  }

  /** Helper: from d * q < d * k with d positive follows q < k. */
  lemma PositiveFactorBound(d: int, q: int, k: int)
    requires d > 0 && d * q < d * k
    ensures q < k
  {
  }

  /** The descending if-chain of `getScoreData` over the percentage. */
  function Classify(pct: int): (d: ScoreData)
    ensures d.pass <==> pct >= 90
    ensures d.pass <==> d.grade == MinimalAcceptableResult
  {
    if pct >= 90 then ScoreData(MinimalAcceptableResult, true)
    else if pct >= 80 then ScoreData(MinimalTolerableFailure, false)
    else if pct >= 70 then ScoreData(InsufficientSuccess, false)
    else if pct >= 60 then ScoreData(DismalResult, false)
    else ScoreData(ExceptionalFailure, false)
  }

  /** A higher percentage never earns a worse grade. */
  lemma ClassifyMonotone(p: int, q: int)
    requires p <= q
    ensures Rank(Classify(p).grade) <= Rank(Classify(q).grade)
  {
  }

  /** The classification matrix printed on the results screen: each grade's
      closed range of whole percentages. */
  function MatrixLow(g: Grade): int {
    match g
    case MinimalAcceptableResult => 90
    case MinimalTolerableFailure => 80
    case InsufficientSuccess => 70
    case DismalResult => 60
    case ExceptionalFailure => 0
  }

  function MatrixHigh(g: Grade): int {
    match g
    case MinimalAcceptableResult => 100
    case MinimalTolerableFailure => 89
    case InsufficientSuccess => 79
    case DismalResult => 69
    case ExceptionalFailure => 59
  }

  predicate InRow(g: Grade, pct: int) {
    MatrixLow(g) <= pct <= MatrixHigh(g)
  }

  /** The matrix rows cover every percentage from 0 to 100 and do not overlap. */
  lemma MatrixPartitions(pct: int)
    requires 0 <= pct <= 100
    ensures exists g :: InRow(g, pct)
    ensures forall g1, g2 :: InRow(g1, pct) && InRow(g2, pct) ==> g1 == g2
  {
    var g := Classify(pct).grade;
    assert InRow(g, pct);
  }

  /** The if-chain agrees with the printed matrix: for a percentage in [0, 100]
      the chain picks grade g exactly when pct lies in g's row. */
  lemma ClassifyAgreesWithMatrix(pct: int)
    requires 0 <= pct <= 100
    ensures forall g :: InRow(g, pct) <==> Classify(pct).grade == g
  {
    MatrixPartitions(pct);
    assert InRow(Classify(pct).grade, pct);
  }

  /** `getScoreData` for `score` correct answers out of `n` questions. The
      result passes exactly when 200 * score >= 179 * n (a rounded 90 percent),
      and its grade is the matrix row of the rounded percentage. */
  function GetScoreData(score: nat, n: nat): (d: ScoreData)
    requires n > 0
    ensures d.pass <==> 200 * score >= 179 * n
    ensures score <= n ==> InRow(d.grade, Percent(score, n))
  {
    GetScoreDataFacts(score, n);
    Classify(Percent(score, n))
  }

  /** The proof behind GetScoreData's contract. */
  lemma GetScoreDataFacts(score: nat, n: nat)
    requires n > 0
    ensures Classify(Percent(score, n)).pass <==> 200 * score >= 179 * n
    ensures score <= n ==> InRow(Classify(Percent(score, n)).grade, Percent(score, n))
  {
    var pct: int := Percent(score, n);
    if 200 * score >= 179 * n {
      assert n * (2 * pct + 1) > n * 179;
      PositiveFactorBound(n, 179, 2 * pct + 1);
    } else {
      assert n * (2 * pct - 1) < n * 179;
      PositiveFactorBound(n, 2 * pct - 1, 179);
    }
    if score <= n {
      ClassifyAgreesWithMatrix(pct);
    }
  }

  /** Every answer correct: 100 percent and a pass. */
  lemma PerfectScorePasses(n: nat)
    requires n > 0
    ensures Percent(n, n) == 100
    ensures GetScoreData(n, n).grade == MinimalAcceptableResult && GetScoreData(n, n).pass
  {
    var pct: int := Percent(n, n);
    PositiveFactorBound(n, 200, 2 * pct + 1);
    PositiveFactorBound(n, 2 * pct - 1, 201);
  }

  /** No answer correct: 0 percent and the lowest grade. */
  lemma ZeroScoreFails(n: nat)
    requires n > 0
    ensures Percent(0, n) == 0
    ensures GetScoreData(0, n).grade == ExceptionalFailure && !GetScoreData(0, n).pass
  {
  }

  /** Five of seven is round(71.43) = 71 percent, "insufficient success". */
  lemma FiveOfSeven()
    ensures Percent(5, 7) == 71
    ensures GetScoreData(5, 7).grade == InsufficientSuccess
  {
  }

  /** With the seven questions of the widget only a perfect score passes:
      six of seven rounds to 86 percent. */
  lemma SevenQuestionsPassOnlyWhenPerfect(score: nat)
    requires score <= 7
    ensures GetScoreData(score, 7).pass <==> score == 7
    ensures score == 6 ==> Percent(score, 7) == 86
  {
  }

  /** With seven questions 100 * score / 7 never ends in exactly one half, so
      the way ties are rounded never matters: 200 * score is no odd multiple of 7. */
  lemma {:induction false} NoRoundingTieForSeven(score: nat)
    ensures (200 * score) % 14 != 7
  {
    var k := 100 * score;
    assert 200 * score == 2 * k;
    assert (2 * k) % 14 == 2 * (k % 7);
  }
}
