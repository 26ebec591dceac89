/** The result helpers of `TestGradingInterface.js`: the `Xh Ym Zs` duration, the five-colour
    percentage scale, the six-band grade scale with a 50 floor, and the analytics over a test's
    results. `TestResultView.js` repeats the duration, the percentage and the grade scale, and its
    colour scale has the same five bands under other class names. */
module GradingAnalytics {
  import opened Common
  import opened Text
  import opened Percent
  import opened Tally

  /** One submitted result of an MCQ test. */
  datatype TestResult = TestResult(score: int, correctAnswers: nat, totalQuestions: nat, timeSpent: nat)

  /** The six-band scale: A+, A, B, C, D, F. */
  datatype Grade6 = APlus | A | B | C | D | F

  datatype ScoreColor = Green | Blue | Yellow | Orange | Red

  /** `calculateAnalytics`: the head count, the mean raw score to two decimals, the rounded mean
      percentage and the per-grade counts. */
  datatype Analytics = Analytics(
    totalStudents: nat, averageScore: real, averagePercentage: int, gradeDistribution: seq<Entry<Grade6>>)

  /** One `Nu` field of the duration: the decimal count followed by its unit letter. */
  function Field(n: nat, unit: char): string
  {
    NatToString(n) + [unit]
  }

  /** The fields of a duration: hours only from one hour up. */
  function DurationFields(seconds: nat): (fields: seq<string>)
    ensures |fields| == if seconds >= 3600 then 3 else 2
  {
    var t := HoursMinutesSeconds(seconds);
    if t.0 > 0 then [Field(t.0, 'h'), Field(t.1, 'm'), Field(t.2, 's')]
    else [Field(t.1, 'm'), Field(t.2, 's')]
  }

  /** `formatTime`: `Hh Mm Ss`, with the hours field left out under one hour. */
  function FormatDuration(seconds: nat): string
  {
    Join(DurationFields(seconds), ' ')
  }

  lemma FieldShape(n: nat, unit: char)
    requires unit != ' '
    ensures ' ' !in Field(n, unit)
    ensures |Field(n, unit)| >= 2 && Field(n, unit)[|Field(n, unit)| - 1] == unit
    ensures IsDigits(Field(n, unit)[..|Field(n, unit)| - 1])
    ensures ParseNat(Field(n, unit)[..|Field(n, unit)| - 1]) == n
  {
    var f := Field(n, unit);
    assert f[..|f| - 1] == NatToString(n);
  }

  /** The value of a duration field with its unit letter dropped. */
  function FieldValue(f: string): nat
    requires |f| >= 1 && IsDigits(f[..|f| - 1])
  {
    ParseNat(f[..|f| - 1])
  }

  /** A field read back: its unit letter and its value. */
  predicate ReadsAs(f: string, unit: char, value: nat)
  {
    |f| >= 2 && f[|f| - 1] == unit && IsDigits(f[..|f| - 1]) && FieldValue(f) == value
  }

  /** Reading a duration back: splitting at spaces gives the fields, three from one hour up and
      two below it, each ending in its unit and reading as the hours, minutes and seconds that
      recompose to the count. */
  lemma DurationRoundTrip(seconds: nat)
    ensures var parts := Split(FormatDuration(seconds), ' ');
      var t := HoursMinutesSeconds(seconds);
      && |parts| == (if seconds >= 3600 then 3 else 2)
      && ReadsAs(parts[|parts| - 1], 's', t.2)
      && ReadsAs(parts[|parts| - 2], 'm', t.1)
      && (seconds >= 3600 ==> ReadsAs(parts[0], 'h', t.0))
      && t.0 * 3600 + t.1 * 60 + t.2 == seconds && t.1 < 60 && t.2 < 60
  {
    var t := HoursMinutesSeconds(seconds);
    var fields := DurationFields(seconds);
    FieldsHaveNoSpace(seconds);
    SplitJoin(fields, ' ');
    FieldReads(t.0, 'h');
    FieldReads(t.1, 'm');
    FieldReads(t.2, 's');
  }

  lemma FieldsHaveNoSpace(seconds: nat)
    ensures forall i :: 0 <= i < |DurationFields(seconds)| ==> ' ' !in DurationFields(seconds)[i]
  {
    var t := HoursMinutesSeconds(seconds);
    FieldShape(t.0, 'h');
    FieldShape(t.1, 'm');
    FieldShape(t.2, 's');
  }

  lemma FieldReads(n: nat, unit: char)
    requires unit != ' '
    ensures ReadsAs(Field(n, unit), unit, n)
  {
    FieldShape(n, unit);
  }

  /** Under one hour the duration is just `Mm Ss`. */
  lemma ShortDuration(seconds: nat)
    requires seconds < 3600
    ensures FormatDuration(seconds) == Field(seconds / 60, 'm') + " " + Field(seconds % 60, 's')
  {
    var fields := DurationFields(seconds);
    assert Join(fields, ' ') == fields[0] + [' '] + Join(fields[1..], ' ');
  }

  /** `getGradeColor`: green from 90, blue from 80, yellow from 70, orange from 60, red below. */
  function ColorFor(percentage: int): (c: ScoreColor)
    ensures c == Red <==> percentage < 60
    ensures c == Green <==> percentage >= 90
  {
    if percentage >= 90 then Green
    else if percentage >= 80 then Blue
    else if percentage >= 70 then Yellow
    else if percentage >= 60 then Orange
    else Red
  }

  function ColorRank(c: ScoreColor): nat
  {
    match c
    case Green => 4
    case Blue => 3
    case Yellow => 2
    case Orange => 1
    case Red => 0
  }

  /** A higher percentage never gets a worse colour, and each colour covers one band of ten points
      from 60 up. */
  lemma ColorMonotone(p1: int, p2: int)
    requires p1 <= p2
    ensures ColorRank(ColorFor(p1)) <= ColorRank(ColorFor(p2))
    ensures 60 <= p1 < 90 ==> ColorRank(ColorFor(p1)) == (p1 - 60) / 10 + 1
  {
  }

  /** `getGrade` of the result view and the grade buckets of `calculateAnalytics`. */
  function GradeFor(percentage: int): (g: Grade6)
    ensures g == F <==> percentage < 50
    ensures g == APlus <==> percentage >= 90
    ensures 50 <= percentage < 90 ==> GradeRank(g) == (percentage - 50) / 10 + 1
  {
    if percentage >= 90 then APlus
    else if percentage >= 80 then A
    else if percentage >= 70 then B
    else if percentage >= 60 then C
    else if percentage >= 50 then D
    else F
  }

  function GradeRank(g: Grade6): nat
  {
    match g
    case APlus => 5
    case A => 4
    case B => 3
    case C => 2
    case D => 1
    case F => 0
  }

  /** A higher percentage never gets a lower grade. */
  lemma GradeMonotone(p1: int, p2: int)
    requires p1 <= p2
    ensures GradeRank(GradeFor(p1)) <= GradeRank(GradeFor(p2))
  {
  }

  /** The rounded percentage of one result. */
  function ResultPercentage(r: TestResult): nat
  {
    GetPercentage(r.correctAnswers, r.totalQuestions)
  }

  function PercentageSum(rs: seq<TestResult>): nat
  {
    if rs == [] then 0 else PercentageSum(rs[..|rs| - 1]) + ResultPercentage(rs[|rs| - 1])
  }

  function ScoreSum(rs: seq<TestResult>): int
  {
    if rs == [] then 0 else ScoreSum(rs[..|rs| - 1]) + rs[|rs| - 1].score
  }

  /** The grade of each result, as the items of the distribution's `reduce`. */
  function GradeItems(rs: seq<TestResult>): (items: seq<(Grade6, bool)>)
    ensures |items| == |rs|
    ensures forall i :: 0 <= i < |rs| ==> items[i] == (GradeFor(ResultPercentage(rs[i])), false)
  {
    seq(|rs|, i requires 0 <= i < |rs| => (GradeFor(ResultPercentage(rs[i])), false))
  }

  /** The number of results whose rounded percentage falls in grade `g`. */
  function ResultsWithGrade(rs: seq<TestResult>, g: Grade6): nat
  {
    if rs == [] then 0
    else ResultsWithGrade(rs[..|rs| - 1], g) + (if GradeFor(ResultPercentage(rs[|rs| - 1])) == g then 1 else 0)
  }

  /** `calculateAnalytics`: nothing without results; otherwise the head count, the mean score to
      the nearest hundredth, the rounded mean percentage and the per-grade counts. */
  function ComputeAnalytics(rs: seq<TestResult>): (r: Option<Analytics>)
    ensures r.None? <==> rs == []
    ensures r.Some? ==> r.value.totalStudents == |rs|
    ensures r.Some? ==>
      var mean := ScoreSum(rs) as real / |rs| as real;
      && r.value.averageScore * 100.0 == (r.value.averageScore * 100.0).Floor as real
      && r.value.averageScore * 100.0 <= mean * 100.0 + 0.5 < r.value.averageScore * 100.0 + 1.0
    ensures r.Some? ==> 2 * |rs| * r.value.averagePercentage <= 2 * PercentageSum(rs) + |rs| < 2 * |rs| * (r.value.averagePercentage + 1)
  {
    if rs == [] then None
    else
      var averageScore := RoundReal(ScoreSum(rs) as real / |rs| as real * 100.0) as real / 100.0;
      Some(Analytics(|rs|, averageScore, RoundedMean(PercentageSum(rs), |rs|), TallyBy(GradeItems(rs))))
  }

  lemma {:induction false} GradeItemsCount(rs: seq<TestResult>, g: Grade6)
    ensures ItemsWith(GradeItems(rs), g) == ResultsWithGrade(rs, g)
  {
    if rs != [] {
      assert GradeItems(rs)[..|rs| - 1] == GradeItems(rs[..|rs| - 1]);
      GradeItemsCount(rs[..|rs| - 1], g);
    }
  }

  /** The distribution has one entry per grade that occurs, counting exactly the results in that
      grade, and its counts add up to the number of results. */
  lemma GradeDistributionCounts(rs: seq<TestResult>)
    requires rs != []
    ensures var dist := ComputeAnalytics(rs).value.gradeDistribution;
      && SumTotals(dist) == |rs|
      && (forall g :: KeyCount(dist, g) == (if ResultsWithGrade(rs, g) > 0 then 1 else 0))
      && (forall g :: TotalFor(dist, g) == ResultsWithGrade(rs, g))
  {
    TallyByCounts(GradeItems(rs));
    forall g ensures ItemsWith(GradeItems(rs), g) == ResultsWithGrade(rs, g) {
      GradeItemsCount(rs, g);
    }
  }

  /** The six grade counts partition the results. */
  lemma {:induction false} GradesPartition(rs: seq<TestResult>)
    ensures ResultsWithGrade(rs, APlus) + ResultsWithGrade(rs, A) + ResultsWithGrade(rs, B)
      + ResultsWithGrade(rs, C) + ResultsWithGrade(rs, D) + ResultsWithGrade(rs, F) == |rs|
  {
    if rs != [] {
      GradesPartition(rs[..|rs| - 1]);
    }
  }

  /** The completion rate `Math.round(results.length / totalStudents * 100)` shown with the
      analytics is always 100, since the head count is the number of results. */
  function CompletionRate(rs: seq<TestResult>): (r: nat)
    requires ComputeAnalytics(rs).Some?
    ensures r == 100
  {
    var n := ComputeAnalytics(rs).value.totalStudents;
    WholeIsHundred(n);
    GetPercentage(|rs|, n)
  }
}
