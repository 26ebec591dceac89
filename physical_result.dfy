/** A student's graded physical test in `PhysicalTestResult.js`: the percentage, the scored and
    remaining slices of the chart, the seven-band grade analysis, the status badge and when the
    retry link shows. */
module PhysicalResult {
  import opened Common
  import opened Percent

  datatype PhysicalResult = PhysicalResult(score: nat, isPassed: bool, status: string, canRetry: bool)

  /** The test as far as the page uses it: its maximum score. */
  datatype PhysicalTest = PhysicalTest(score: nat)

  /** `calculatePercentage`: 0 while the result or the test is missing, otherwise the unguarded
      `Math.round((result.score / test.score) * 100)`. */
  function CalculatePercentage(result: Option<PhysicalResult>, test: Option<PhysicalTest>): (p: JsPercent)
    ensures result.None? || test.None? ==> p == Finite(0)
    ensures result.Some? && test.Some? ==> p == RoundJs(result.value.score, test.value.score)
    ensures result.Some? && test.Some? && test.value.score > 0 ==>
      p.Finite? && 2 * test.value.score * p.value <= 200 * result.value.score + test.value.score < 2 * test.value.score * (p.value + 1)
    ensures result.Some? && test.Some? && result.value.score <= test.value.score ==> p.Finite? ==> 0 <= p.value <= 100
  {
    if result.None? || test.None? then Finite(0)
    else
      var c, t := result.value.score, test.value.score;
      if t > 0 then
        assert RoundJs(c, t) == Finite(RoundedPercent(c, t));
        RoundJs(c, t)
      else RoundJs(c, t)
  }

  /** `getPerformanceData`: the two pie slices. */
  datatype Slices = Slices(scored: int, remaining: int)

  /** The slices always add up to the test's maximum; `Remaining` is negative exactly when the
      score exceeds the maximum. */
  function PerformanceData(result: PhysicalResult, test: PhysicalTest): (s: Slices)
    ensures s.scored + s.remaining == test.score
    ensures s.scored == result.score
    ensures s.remaining < 0 <==> result.score > test.score
  {
    Slices(result.score, test.score - result.score)
  }

  // ---------------------------------------------------------------- grade analysis

  /** This page's scale: A+, A, B+, B, C, D with a 40 floor, then F. */
  datatype Band = APlus | A | BPlus | B | C | D | F

  datatype Tone = Green | Blue | Yellow | Orange | Red

  datatype Analysis = Analysis(grade: Band, description: string, color: Tone)

  /** The position of a band, F lowest. */
  function BandRank(g: Band): nat
  {
    match g
    case F => 0
    case D => 1
    case C => 2
    case B => 3
    case BPlus => 4
    case A => 5
    case APlus => 6
  }

  /** `getGradeAnalysis` on the rounded percentage: the first threshold of 90, 80, 70, 60, 50 and
      40 that it reaches; an infinite percentage reaches them all and `NaN` none. */
  function GradeAnalysis(p: JsPercent): (a: Analysis)
    ensures a.grade == APlus <==> AtLeast(p, 90)
    ensures a.grade == F <==> !AtLeast(p, 40)
    ensures p.Finite? ==> (BandRank(a.grade) >= 1 <==> p.value >= 40)
    ensures p.Finite? && 40 <= p.value < 90 ==> BandRank(a.grade) == (p.value - 30) / 10
    ensures (a.color == Green <==> BandRank(a.grade) >= 5) && (a.color == Red <==> a.grade == F)
  {
    if AtLeast(p, 90) then Analysis(APlus, "Excellent Performance", Green)
    else if AtLeast(p, 80) then Analysis(A, "Very Good Performance", Green)
    else if AtLeast(p, 70) then Analysis(BPlus, "Good Performance", Blue)
    else if AtLeast(p, 60) then Analysis(B, "Satisfactory Performance", Blue)
    else if AtLeast(p, 50) then Analysis(C, "Average Performance", Yellow)
    else if AtLeast(p, 40) then Analysis(D, "Below Average Performance", Orange)
    else Analysis(F, "Needs Improvement", Red)
  }

  /** A higher percentage never earns a lower band. */
  lemma GradeAnalysisMonotone(p: int, q: int)
    requires p <= q
    ensures BandRank(GradeAnalysis(Finite(p)).grade) <= BandRank(GradeAnalysis(Finite(q)).grade)
  {
  }

  /** A score reaching 90% of the maximum before rounding earns A+, and one below 39.5% earns F. */
  lemma {:induction false} UnroundedScoreBands(score: nat, max: nat)
    requires max > 0
    ensures PercentAtLeast(score, max, 90) ==> GradeAnalysis(RoundJs(score, max)).grade == APlus
    ensures 200 * score + max < 80 * max ==> GradeAnalysis(RoundJs(score, max)).grade == F
  {
    if PercentAtLeast(score, max, 90) {
      RoundingKeepsThreshold(score, max, 90);
    }
    var r := RoundedPercent(score, max);
    assert RoundJs(score, max) == Finite(r);
    if 200 * score + max < 80 * max && r >= 40 {
      MulMonotone(2 * max, 40, r);
    }
  }

  // ---------------------------------------------------------------- badge and retry

  datatype StatusBadge = PassedBadge | FailedBadge | GradedBadge

  /** `getStatusBadge`: `Passed` whenever `isPassed`, `Failed` for status `failed`, otherwise
      `Graded`. */
  function StatusBadgeOf(r: PhysicalResult): (b: StatusBadge)
    ensures b == PassedBadge <==> r.isPassed
    ensures b == FailedBadge <==> !r.isPassed && r.status == "failed"
  {
    if r.isPassed then PassedBadge else if r.status == "failed" then FailedBadge else GradedBadge
  }

  /** The retry link under the header and at the foot of the page. */
  predicate ShowsRetry(r: PhysicalResult)
  {
    !r.isPassed && r.canRetry
  }

  /** The retry link never shows beside a `Passed` badge, and shows for every failed or graded
      copy that may be retried. */
  lemma RetryOnlyWhenNotPassed(r: PhysicalResult)
    ensures ShowsRetry(r) <==> StatusBadgeOf(r) != PassedBadge && r.canRetry
  {
  }
}
