/** The student's result page of `TestResultView.js`: the correct/incorrect split, the tally of
    answers per question difficulty, and the reshaping of a chapter-test result into the
    enhanced-result shape. Its duration, percentage, colour and grade helpers are those of
    `GradingAnalytics`. */
module ResultView {
  import opened Common
  import opened Percent
  import opened Tally
  import opened GradingAnalytics

  datatype TestQuestion = TestQuestion(id: string, difficultyLevel: Option<string>)

  datatype DetailedResult = DetailedResult(
    questionId: string, selectedAnswer: string, correctAnswer: string, isCorrect: bool, score: int)

  /** A result in the enhanced shape the page renders. */
  datatype ViewResult = ViewResult(
    id: string, score: Option<int>, correctAnswers: int, totalQuestions: int, timeSpent: int,
    submittedAt: int, detailedResults: seq<DetailedResult>)

  datatype ChapterAnswer = ChapterAnswer(
    questionId: string, answer: string, correctAnswer: string, isCorrect: bool, score: Option<int>)

  /** A chapter-test result as the chapter endpoint returns it. */
  datatype ChapterResult = ChapterResult(
    id: string, score: Option<int>, correctAnswers: Option<int>, totalQuestions: Option<int>,
    timeSpent: Option<int>, submittedAt: int, answers: Option<seq<ChapterAnswer>>)

  /** One bar of the difficulty chart. */
  datatype DifficultyBar = DifficultyBar(difficulty: string, percentage: nat, correct: nat, total: nat)

  /** The pie chart: correct answers and the rest of the questions. */
  function PieSlices(correctAnswers: int, totalQuestions: int): (r: (int, int))
    ensures r.0 == correctAnswers
    ensures r.0 + r.1 == totalQuestions
  {
    (correctAnswers, totalQuestions - correctAnswers)
  }

  /** `test.questions.find(q => q._id === id)?.difficultyLevel || 'Medium'`. */
  function DifficultyOf(qs: seq<TestQuestion>, id: string): (d: string)
    ensures d != ""
    ensures (forall i :: 0 <= i < |qs| ==> qs[i].id != id) ==> d == "Medium"
    ensures forall i :: 0 <= i < |qs| && qs[i].id == id && (forall j :: 0 <= j < i ==> qs[j].id != id) ==>
      d == LevelOrMedium(qs[i])
  {
    if qs == [] then "Medium"
    else if qs[0].id == id then
      LevelOrMedium(qs[0])
    else
      var d := DifficultyOf(qs[1..], id);
      assert forall i :: 1 <= i < |qs| ==> qs[i] == qs[1..][i - 1];
      d
  }

  /** `q.difficultyLevel || 'Medium'`: a missing or empty level reads as `Medium`. */
  function LevelOrMedium(q: TestQuestion): (d: string)
    ensures d != ""
  {
    var level := q.difficultyLevel.GetOr("");
    if level != "" then level else "Medium"
  }

  /** The items of the `reduce`: each detailed answer's difficulty and whether it was correct. */
  function DifficultyItems(detailed: seq<DetailedResult>, qs: seq<TestQuestion>): (items: seq<(string, bool)>)
    ensures |items| == |detailed|
    ensures forall i :: 0 <= i < |detailed| ==>
      items[i] == (DifficultyOf(qs, detailed[i].questionId), detailed[i].isCorrect)
  {
    seq(|detailed|, i requires 0 <= i < |detailed| =>
      (DifficultyOf(qs, detailed[i].questionId), detailed[i].isCorrect))
  }

  /** `difficultyAnalysis`: per difficulty, in order of first appearance, the answers and the
      correct ones among them. */
  function DifficultyAnalysis(detailed: seq<DetailedResult>, qs: seq<TestQuestion>): seq<Entry<string>>
  {
    TallyBy(DifficultyItems(detailed, qs))
  }

  function AnswersAt(detailed: seq<DetailedResult>, qs: seq<TestQuestion>, d: string): nat
  {
    if detailed == [] then 0
    else
      var last := detailed[|detailed| - 1];
      AnswersAt(detailed[..|detailed| - 1], qs, d) + (if DifficultyOf(qs, last.questionId) == d then 1 else 0)
  }

  function CorrectAt(detailed: seq<DetailedResult>, qs: seq<TestQuestion>, d: string): nat
  {
    if detailed == [] then 0
    else
      var last := detailed[|detailed| - 1];
      CorrectAt(detailed[..|detailed| - 1], qs, d) + (if DifficultyOf(qs, last.questionId) == d && last.isCorrect then 1 else 0)
  }

  lemma {:induction false} DifficultyItemsCount(detailed: seq<DetailedResult>, qs: seq<TestQuestion>, d: string)
    ensures ItemsWith(DifficultyItems(detailed, qs), d) == AnswersAt(detailed, qs, d)
    ensures HitsWith(DifficultyItems(detailed, qs), d) == CorrectAt(detailed, qs, d)
  {
    if detailed != [] {
      var n := |detailed| - 1;
      assert DifficultyItems(detailed, qs)[..n] == DifficultyItems(detailed[..n], qs);
      DifficultyItemsCount(detailed[..n], qs, d);
    }
  }

  /** Every difficulty bucket counts exactly the answers at that difficulty and the correct ones
      among them, so correct never exceeds total; each difficulty has one bucket, and the totals add
      up to the number of detailed answers. */
  lemma DifficultyAnalysisCounts(detailed: seq<DetailedResult>, qs: seq<TestQuestion>)
    ensures var analysis := DifficultyAnalysis(detailed, qs);
      && SumTotals(analysis) == |detailed|
      && (forall e :: e in analysis ==> 1 <= e.total && e.correct <= e.total)
      && (forall d :: KeyCount(analysis, d) == (if AnswersAt(detailed, qs, d) > 0 then 1 else 0))
      && (forall d :: TotalFor(analysis, d) == AnswersAt(detailed, qs, d))
      && (forall d :: CorrectFor(analysis, d) == CorrectAt(detailed, qs, d))
  {
    TallyByCounts(DifficultyItems(detailed, qs));
    forall d ensures ItemsWith(DifficultyItems(detailed, qs), d) == AnswersAt(detailed, qs, d)
      && HitsWith(DifficultyItems(detailed, qs), d) == CorrectAt(detailed, qs, d) {
      DifficultyItemsCount(detailed, qs, d);
    }
  }

  /** An answer to a question the test does not list is tallied under `Medium`. */
  lemma UnknownQuestionIsMedium(qs: seq<TestQuestion>, item: DetailedResult)
    requires forall i :: 0 <= i < |qs| ==> qs[i].id != item.questionId
    ensures DifficultyAnalysis([item], qs) == [Entry("Medium", if item.isCorrect then 1 else 0, 1)]
  {
    var items := DifficultyItems([item], qs);
    assert items == [("Medium", item.isCorrect)];
    assert items[..0] == [];
    assert TallyBy(items) == Bump(TallyBy(items[..0]), items[0].0, items[0].1);
  }

  /** One bar: `Math.round((correct / total) * 100)` of a bucket, which has at least one answer. */
  function Bar(e: Entry<string>): (b: DifficultyBar)
    requires Sane(e)
    ensures b.difficulty == e.key && b.correct == e.correct && b.total == e.total
    ensures b.percentage <= 100
    ensures 2 * b.total * b.percentage <= 200 * b.correct + b.total < 2 * b.total * (b.percentage + 1)
  {
    RoundedPercentAtMost100(e.correct, e.total);
    DifficultyBar(e.key, RoundedPercent(e.correct, e.total), e.correct, e.total)
  }

  /** `difficultyChartData`: one bar per bucket, in bucket order. */
  function DifficultyChart(analysis: seq<Entry<string>>): (bars: seq<DifficultyBar>)
    requires forall e :: e in analysis ==> Sane(e)
    ensures |bars| == |analysis|
    ensures forall i :: 0 <= i < |analysis| ==> bars[i] == Bar(analysis[i])
  {
    seq(|analysis|, i requires 0 <= i < |analysis| => assert analysis[i] in analysis; Bar(analysis[i]))
  }

  /** One stored chapter answer in the detailed-result shape; a missing score counts 0. */
  function ToDetailed(a: ChapterAnswer): DetailedResult
  {
    DetailedResult(a.questionId, a.answer, a.correctAnswer, a.isCorrect, a.score.GetOr(0))
  }

  /** The chapter-test fallback: counters default to 0 and every stored answer becomes one
      detailed result, in order; without answers there are none. */
  function FromChapterResult(c: ChapterResult): (r: ViewResult)
    ensures r.id == c.id && r.score == c.score && r.submittedAt == c.submittedAt
    ensures r.correctAnswers == c.correctAnswers.GetOr(0)
    ensures r.totalQuestions == c.totalQuestions.GetOr(0)
    ensures r.timeSpent == c.timeSpent.GetOr(0)
    ensures c.answers.None? ==> r.detailedResults == []
    ensures c.answers.Some? ==>
      && |r.detailedResults| == |c.answers.value|
      && forall i :: 0 <= i < |c.answers.value| ==>
           var a, d := c.answers.value[i], r.detailedResults[i];
           && d.questionId == a.questionId && d.selectedAnswer == a.answer
           && d.correctAnswer == a.correctAnswer && d.isCorrect == a.isCorrect
           && (a.score.Some? ==> d.score == a.score.value) && (a.score.None? ==> d.score == 0)
  {
    var detailed := match c.answers
      case None => []
      case Some(answers) => seq(|answers|, i requires 0 <= i < |answers| => ToDetailed(answers[i]));
    ViewResult(c.id, c.score, c.correctAnswers.GetOr(0), c.totalQuestions.GetOr(0),
      c.timeSpent.GetOr(0), c.submittedAt, detailed)
  }

  /** The grade the page shows: `getGrade(getPercentage(correctAnswers, totalQuestions))`. */
  function PageGrade(correct: nat, total: nat): Grade6
  {
    GradeFor(GetPercentage(correct, total))
  }

  /** The page grades the rounded percentage: no questions gives F, and otherwise A+ is reached
      from 89.5% and F is given below 49.5%, written with cross-multiplication. */
  lemma PageGradeThresholds(correct: nat, total: nat)
    ensures total == 0 ==> PageGrade(correct, total) == F
    ensures total > 0 ==> (PageGrade(correct, total) == APlus <==> 180 * total <= 200 * correct + total)
    ensures total > 0 ==> (PageGrade(correct, total) == F <==> 200 * correct + total < 100 * total)
  {
    if total > 0 {
      var r := GetPercentage(correct, total);
      RoundedAtLeast(correct, total, r, 90);
      RoundedAtLeast(correct, total, r, 50);
    }
  }

  /** A rounded percentage reaches a whole threshold exactly when the unrounded one is within half
      a point of it. */
  lemma RoundedAtLeast(correct: nat, total: nat, r: int, p: int)
    requires total > 0 && 2 * total * r <= 200 * correct + total < 2 * total * (r + 1)
    ensures r >= p <==> 2 * total * p <= 200 * correct + total
  {
    if r >= p {
      MulMonotone(2 * total, p, r);
    } else {
      MulMonotone(2 * total, r + 1, p);
    }
  }
}
