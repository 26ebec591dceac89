/** The teacher's grading sheet of `EnhancedTestCheck.js`: per-question scores clamped to the
    question's marks, a recommendations list holding one entry for every question marked below
    full marks, and the total and seven-band letter grade derived from them. */
module GradingRubric {
  import opened Common
  import opened Lists
  import opened Percent

  /** A question of a physical test; `score` is its full marks. */
  datatype RubricQuestion = RubricQuestion(id: string, topicId: string, score: nat)

  datatype Recommendation = Recommendation(questionId: string, topicId: string, score: int)

  /** The seven-band scale, with a 40 floor. */
  datatype Grade7 = APlus | A | BPlus | B | C | D | F

  /** The `grade` state: `'Not graded'` or a letter. */
  datatype GradeLabel = NotGraded | Letter(letter: Grade7)

  /** What the server holds for a copy that has been graded before. */
  datatype StoredGrading = StoredGrading(grade: Grade7, score: int, recommendations: seq<Recommendation>)

  /** The body sent by `handleSubmit`. */
  datatype GradingBody = GradingBody(score: int, recommendations: seq<Recommendation>, grade: Grade7)

  datatype GradeColor = Green | Blue | Yellow | Orange | Red | Gray

  predicate IsQuestionId(qs: seq<RubricQuestion>, id: string)
  {
    exists i :: 0 <= i < |qs| && qs[i].id == id
  }

  predicate DistinctIds(qs: seq<RubricQuestion>)
  {
    forall i, j :: 0 <= i < j < |qs| ==> qs[i].id != qs[j].id
  }

  /** `questions.find(q => q._id === id)`: the first question with that id. */
  function FindQuestion(qs: seq<RubricQuestion>, id: string): (r: Option<RubricQuestion>)
    ensures r.None? <==> !IsQuestionId(qs, id)
    ensures r.Some? ==> r.value.id == id && r.value in qs
    ensures DistinctIds(qs) ==> forall i :: 0 <= i < |qs| && qs[i].id == id ==> r == Some(qs[i])
  {
    if qs == [] then None
    else if qs[0].id == id then Some(qs[0])
    else
      var r := FindQuestion(qs[1..], id);
      assert forall i :: 1 <= i < |qs| ==> qs[i] == qs[1..][i - 1];
      assert IsQuestionId(qs[1..], id) ==> IsQuestionId(qs, id);
      assert IsQuestionId(qs, id) ==> IsQuestionId(qs[1..], id) by {
        if IsQuestionId(qs, id) {
          var i :| 0 <= i < |qs| && qs[i].id == id;
          assert qs[1..][i - 1].id == id;
        }
      }
      r
  }

  /** The full marks of the question with that id. */
  function MaxScore(qs: seq<RubricQuestion>, id: string): nat
    requires IsQuestionId(qs, id)
  {
    FindQuestion(qs, id).value.score
  }

  /** `Math.max(0, Math.min(value, max))`. */
  function Clamp(value: int, max: nat): (r: nat)
    ensures r <= max
    ensures 0 <= value <= max ==> r == value
    ensures value < 0 ==> r == 0
    ensures value > max ==> r == max
  {
    if value < 0 then 0 else if value > max then max else value
  }

  /** The number of recommendations about question `id`. */
  function CountFor(recs: seq<Recommendation>, id: string): nat
  {
    if recs == [] then 0 else (if recs[0].questionId == id then 1 else 0) + CountFor(recs[1..], id)
  }

  function OtherQuestion(id: string): Recommendation -> bool
  {
    (rec: Recommendation) => rec.questionId != id
  }

  lemma {:induction false} CountForRemoved(recs: seq<Recommendation>, id: string, k: string)
    ensures CountFor(Filter(recs, OtherQuestion(id)), k) == if k == id then 0 else CountFor(recs, k)
  {
    if recs != [] {
      CountForRemoved(recs[1..], id, k);
    }
  }

  lemma {:induction false} CountForAppend(a: seq<Recommendation>, b: seq<Recommendation>, k: string)
    ensures CountFor(a + b, k) == CountFor(a, k) + CountFor(b, k)
  {
    if a == [] {
      assert a + b == b;
    } else {
      assert (a + b)[0] == a[0] && (a + b)[1..] == a[1..] + b;
      CountForAppend(a[1..], b, k);
    }
  }

  lemma {:induction false} CountForPositive(recs: seq<Recommendation>, k: string)
    ensures CountFor(recs, k) > 0 <==> exists r :: r in recs && r.questionId == k
  {
    if recs != [] {
      CountForPositive(recs[1..], k);
      assert forall r :: r in recs <==> r == recs[0] || r in recs[1..];
    }
  }

  /** `updateRecommendations`: the entries about `q` are dropped, and one is appended exactly when
      the score is below full marks; every entry about another question stays. */
  function UpdateRecommendations(recs: seq<Recommendation>, q: RubricQuestion, score: int)
    : (r: seq<Recommendation>)
    ensures CountFor(r, q.id) == if score < q.score then 1 else 0
    ensures forall k :: k != q.id ==> CountFor(r, k) == CountFor(recs, k)
    ensures forall x :: x in recs && x.questionId != q.id ==> x in r
    ensures forall x :: x in r ==> (x in recs && x.questionId != q.id) || x == Recommendation(q.id, q.topicId, score)
  {
    var filtered := Filter(recs, OtherQuestion(q.id));
    CountForRemoved(recs, q.id, q.id);
    forall k | k != q.id ensures CountFor(filtered, k) == CountFor(recs, k) {
      CountForRemoved(recs, q.id, k);
    }
    if score < q.score then
      var added := [Recommendation(q.id, q.topicId, score)];
      CountForAppend(filtered, added, q.id);
      forall k | k != q.id ensures CountFor(filtered + added, k) == CountFor(recs, k) {
        CountForAppend(filtered, added, k);
      }
      filtered + added
    else
      filtered
  }

  /** The score of the first recommendation about `id`, or `default`. */
  function RecScoreOr(recs: seq<Recommendation>, id: string, default: int): (r: int)
    ensures CountFor(recs, id) == 0 ==> r == default
    ensures forall x :: x in recs && x.questionId == id && CountFor(recs, id) == 1 ==> r == x.score
  {
    if recs == [] then default
    else if recs[0].questionId == id then
      CountForPositive(recs[1..], id);
      recs[0].score
    else RecScoreOr(recs[1..], id, default)
  }

  /** The pre-fill as written: `responses[rec.questionId] = rec.score || 0` for each stored
      recommendation, later entries overwriting earlier ones. */
  function PrefillAsWritten(recs: seq<Recommendation>): (m: map<string, int>)
    ensures forall k :: k in m <==> exists x :: x in recs && x.questionId == k
    ensures forall k :: k in m ==> exists i ::
      && 0 <= i < |recs| && recs[i].questionId == k && m[k] == recs[i].score
      && forall j :: i < j < |recs| ==> recs[j].questionId != k
  {
    if recs == [] then map[]
    else
      var last := recs[|recs| - 1];
      var init := recs[..|recs| - 1];
      var m := PrefillAsWritten(init);
      assert recs == init + [last];
      var r := m[last.questionId := last.score];
      forall k | k in r
        ensures exists i ::
          && 0 <= i < |recs| && recs[i].questionId == k && r[k] == recs[i].score
          && forall j :: i < j < |recs| ==> recs[j].questionId != k
      {
        if k != last.questionId {
          var i :| 0 <= i < |init| && init[i].questionId == k && m[k] == init[i].score
            && forall j :: i < j < |init| ==> init[j].questionId != k;
          assert recs[i] == init[i];
          forall j | i < j < |recs| ensures recs[j].questionId != k {
            if j < |init| { assert recs[j] == init[j]; }
          }
        }
      }
      r
  }

  /** When no question has two recommendations, the written pre-fill gives each recommended
      question the score its recommendation carries. */
  lemma {:induction false} PrefillAsWrittenScores(recs: seq<Recommendation>)
    requires forall k :: CountFor(recs, k) <= 1
    ensures forall x :: x in recs ==>
      && x.questionId in PrefillAsWritten(recs)
      && PrefillAsWritten(recs)[x.questionId] == x.score
  {
    if recs != [] {
      var last := recs[|recs| - 1];
      var init := recs[..|recs| - 1];
      assert recs == init + [last];
      forall k ensures CountFor(init, k) <= 1 {
        CountForAppend(init, [last], k);
      }
      PrefillAsWrittenScores(init);
      CountForAppend(init, [last], last.questionId);
      CountForPositive(init, last.questionId);
    }
  }

  /** The pre-fill that restores the stored grading: a question with a recommendation gets its
      score back, and a question without one had full marks. */
  function Prefill(qs: seq<RubricQuestion>, recs: seq<Recommendation>): (m: map<string, int>)
    ensures forall k :: k in m <==> IsQuestionId(qs, k)
  {
    map k | k in QuestionIds(qs) :: RecScoreOr(recs, k, MaxScore(qs, k))
  }

  function QuestionIds(qs: seq<RubricQuestion>): (r: set<string>)
    ensures forall k :: k in r <==> IsQuestionId(qs, k)
  {
    set i | 0 <= i < |qs| :: qs[i].id
  }

  function MaxScoreOf(q: RubricQuestion): int
  {
    q.score
  }

  /** `responses[q._id] || 0` as a function of the question. */
  function ScoreIn(responses: map<string, int>): RubricQuestion -> int
  {
    (q: RubricQuestion) => if q.id in responses then responses[q.id] else 0
  }

  /** The total possible score: the sum of every question's full marks. */
  function PossibleOf(qs: seq<RubricQuestion>): nat
  {
    SumOfNonNegative(qs, MaxScoreOf);
    SumOf(qs, MaxScoreOf)
  }

  /** The total as `calculateGradeAndTotal` accumulates it: missing scores count 0. */
  function TotalOf(qs: seq<RubricQuestion>, responses: map<string, int>): int
  {
    SumOf(qs, ScoreIn(responses))
  }

  /** The grade of `total` out of `possible` on the unrounded percentage; a zero possible score
      gives `NaN` (grade F) for a zero total and `Infinity` (grade A+) otherwise. */
  function RubricGrade(total: int, possible: nat): (g: Grade7)
    ensures possible > 0 ==>
      && (g == APlus <==> 10 * total >= 9 * possible)
      && (g == A <==> 8 * possible <= 10 * total < 9 * possible)
      && (g == BPlus <==> 7 * possible <= 10 * total < 8 * possible)
      && (g == B <==> 6 * possible <= 10 * total < 7 * possible)
      && (g == C <==> 5 * possible <= 10 * total < 6 * possible)
      && (g == D <==> 4 * possible <= 10 * total < 5 * possible)
      && (g == F <==> 10 * total < 4 * possible)
    ensures possible == 0 ==> (g == APlus <==> total > 0) && (g == F <==> total <= 0)
  {
    if PercentAtLeast(total, possible, 90) then APlus
    else if PercentAtLeast(total, possible, 80) then A
    else if PercentAtLeast(total, possible, 70) then BPlus
    else if PercentAtLeast(total, possible, 60) then B
    else if PercentAtLeast(total, possible, 50) then C
    else if PercentAtLeast(total, possible, 40) then D
    else F
  }

  function Rank(g: Grade7): nat
  {
    match g
    case APlus => 6
    case A => 5
    case BPlus => 4
    case B => 3
    case C => 2
    case D => 1
    case F => 0
  }

  /** A higher total never gets a lower grade. */
  lemma RubricGradeMonotone(t1: int, t2: int, possible: nat)
    requires t1 <= t2
    ensures Rank(RubricGrade(t1, possible)) <= Rank(RubricGrade(t2, possible))
  {
  }

  /** `getGradeColor`: green for A+/A, blue for B+/B, yellow for C, orange for D, red for F,
      grey for anything else (here `'Not graded'`). */
  function ColorOf(g: GradeLabel): (c: GradeColor)
    ensures c == Gray <==> g == NotGraded
    ensures c == Green <==> g.Letter? && Rank(g.letter) >= 5
    ensures c == Blue <==> g.Letter? && 3 <= Rank(g.letter) <= 4
  {
    match g
    case NotGraded => Gray
    case Letter(APlus) => Green
    case Letter(A) => Green
    case Letter(BPlus) => Blue
    case Letter(B) => Blue
    case Letter(C) => Yellow
    case Letter(D) => Orange
    case Letter(F) => Red
  }

  /** `Object.values(responses).reduce((acc, s) => acc + (s || 0), 0)`: the sum of every recorded
      score, in no particular order (scores are integers here, so `s || 0` is `s`). */
  ghost function ValuesTotal(m: map<string, int>): int
    decreases |m|
  {
    if m == map[] then 0
    else
      var k := AnyKey(m);
      assert (m - {k}).Keys == m.Keys - {k};
      m[k] + ValuesTotal(m - {k})
  }

  /** Some key of a non-empty map: the one `ValuesTotal` adds first. */
  ghost function AnyKey(m: map<string, int>): string
    requires m != map[]
  {
    assert exists k :: k in m by { var k :| k in m.Keys; }
    var k :| k in m; k
  }

  /** Any recorded score can be taken out of the sum first. */
  lemma {:induction false} ValuesTotalRemove(m: map<string, int>, k: string)
    requires k in m
    ensures ValuesTotal(m) == m[k] + ValuesTotal(m - {k})
    decreases |m|
  {
    var j := AnyKey(m);
    assert (m - {j}).Keys == m.Keys - {j};
    if j != k {
      assert (m - {k}).Keys == m.Keys - {k};
      ValuesTotalRemove(m - {j}, k);
      ValuesTotalRemove(m - {k}, j);
      assert m - {j} - {k} == m - {k} - {j};
    }
  }

  /** With distinct question ids and every recorded score keyed by a question, the sum over the
      recorded scores is the per-question total of `calculateGradeAndTotal`. */
  lemma {:induction false} ValuesTotalIsTotal(qs: seq<RubricQuestion>, m: map<string, int>)
    requires DistinctIds(qs)
    requires forall k :: k in m ==> IsQuestionId(qs, k)
    ensures ValuesTotal(m) == TotalOf(qs, m)
  {
    if qs == [] {
      assert m == map[];
    } else {
      var q := qs[|qs| - 1];
      var init := qs[..|qs| - 1];
      var rest := m - {q.id};
      forall i, j | 0 <= i < j < |init| ensures init[i].id != init[j].id {
        assert init[i] == qs[i] && init[j] == qs[j];
      }
      forall k | k in rest ensures IsQuestionId(init, k) {
        var i :| 0 <= i < |qs| && qs[i].id == k;
        assert i != |qs| - 1 && init[i] == qs[i];
      }
      ValuesTotalIsTotal(init, rest);
      forall x | x in init ensures ScoreIn(rest)(x) == ScoreIn(m)(x) {
        var i :| 0 <= i < |init| && init[i] == x;
        assert qs[i] == x;
      }
      SumOfMonotone(init, ScoreIn(rest), ScoreIn(m));
      SumOfMonotone(init, ScoreIn(m), ScoreIn(rest));
      if q.id in m {
        ValuesTotalRemove(m, q.id);
      } else {
        assert rest == m;
      }
    }
  }

  /** `getScoreDistribution`: the scored slice is the sum of the recorded scores, and the two
      slices make up the possible score, or 100 when there are no marks. */
  ghost function ScoreDistribution(qs: seq<RubricQuestion>, responses: map<string, int>): (r: (int, int))
    ensures PossibleOf(qs) != 0 ==> r.0 + r.1 == PossibleOf(qs)
    ensures PossibleOf(qs) == 0 ==> r.0 + r.1 == 100
    ensures DistinctIds(qs) && (forall k :: k in responses ==> IsQuestionId(qs, k)) ==>
      r.0 == TotalOf(qs, responses)
  {
    var possible := PossibleOf(qs);
    var denominator := if possible != 0 then possible else 100;
    var currentTotal := ValuesTotal(responses);
    var r := (currentTotal, denominator - currentTotal);
    if DistinctIds(qs) && (forall k :: k in responses ==> IsQuestionId(qs, k)) then
      ValuesTotalIsTotal(qs, responses);
      r
    else
      r
  }

  /** Each question's recorded score lies within its marks, so the total lies within the
      possible score. */
  lemma {:induction false} TotalWithinPossible(qs: seq<RubricQuestion>, responses: map<string, int>)
    requires DistinctIds(qs)
    requires forall k :: k in responses ==> IsQuestionId(qs, k) && 0 <= responses[k] <= MaxScore(qs, k)
    ensures 0 <= TotalOf(qs, responses) <= PossibleOf(qs)
  {
    forall q | q in qs ensures 0 <= ScoreIn(responses)(q) <= MaxScoreOf(q) {
      var i :| 0 <= i < |qs| && qs[i] == q;
      if q.id in responses {
        assert FindQuestion(qs, q.id) == Some(qs[i]);
      }
    }
    SumOfNonNegative(qs, ScoreIn(responses));
    SumOfMonotone(qs, ScoreIn(responses), MaxScoreOf);
  }

  /** A graded copy read back with the written pre-fill loses every full-marks question: one
      question graded 10 out of 10 is stored without recommendations, comes back with no scores,
      and re-totals to 0. */
  lemma PrefillAsWrittenLosesFullMarks()
    ensures var qs := [RubricQuestion("q1", "t1", 10)];
      var graded := map["q1" := 10];
      && TotalOf(qs, graded) == 10
      && UpdateRecommendations([], qs[0], 10) == []
      && PrefillAsWritten([]) == map[]
      && TotalOf(qs, PrefillAsWritten([])) == 0
  {
    var qs := [RubricQuestion("q1", "t1", 10)];
    assert qs[..0] == [];
  }

  /** The `forEach` loop of `calculateGradeAndTotal`, adding each question's recorded score. */
  method AccumulateTotal(qs: seq<RubricQuestion>, responses: map<string, int>) returns (total: int)
    ensures total == TotalOf(qs, responses)
  {
    total := 0;
    var i := 0;
    while i < |qs|
      invariant 0 <= i <= |qs|
      invariant total == SumOf(qs[..i], ScoreIn(responses))
    {
      var q := qs[i];
      var userScore := if q.id in responses then responses[q.id] else 0;
      SumOfStep(qs, i, ScoreIn(responses));
      total := total + userScore;
      i := i + 1;
    }
    assert qs[..i] == qs;
  }

  /** Recorded scores lie within their questions' marks, each question has at most one
      recommendation, which carries its recorded score and exists exactly when that score is
      below full marks. */
  ghost predicate SheetConsistent(qs: seq<RubricQuestion>, responses: map<string, int>, recs: seq<Recommendation>)
  {
    && DistinctIds(qs)
    && (forall k :: k in responses ==> IsQuestionId(qs, k) && 0 <= responses[k] <= MaxScore(qs, k))
    && (forall x :: x in recs ==> x.questionId in responses && responses[x.questionId] == x.score)
    && (forall k :: CountFor(recs, k) <= 1)
    && (forall k :: k in responses ==> (CountFor(recs, k) == 1 <==> responses[k] < MaxScore(qs, k)))
  }

  /** After a change to question `id`, each recorded score is still within its marks, and a
      question has a recommendation exactly when its score is below full marks. */
  lemma ScoreChangeKeepsScores(qs: seq<RubricQuestion>, responses: map<string, int>,
                               recs: seq<Recommendation>, id: string, value: int)
    requires SheetConsistent(qs, responses, recs) && IsQuestionId(qs, id)
    ensures var clamped := Clamp(value, MaxScore(qs, id));
      var m := responses[id := clamped];
      var r := UpdateRecommendations(recs, FindQuestion(qs, id).value, clamped);
      forall k :: k in m ==>
        && IsQuestionId(qs, k) && 0 <= m[k] <= MaxScore(qs, k)
        && (CountFor(r, k) == 1 <==> m[k] < MaxScore(qs, k))
  {
    var q := FindQuestion(qs, id).value;
    var clamped := Clamp(value, q.score);
    var m := responses[id := clamped];
    var r := UpdateRecommendations(recs, q, clamped);
    forall k | k in m
      ensures IsQuestionId(qs, k) && 0 <= m[k] <= MaxScore(qs, k)
      ensures CountFor(r, k) == 1 <==> m[k] < MaxScore(qs, k)
    {
      if k != id {
        assert m[k] == responses[k] && CountFor(r, k) == CountFor(recs, k);
      }
    }
  }

  /** After a change to question `id`, every recommendation still carries its question's
      recorded score, and no question has two. */
  lemma ScoreChangeKeepsRecommendations(qs: seq<RubricQuestion>, responses: map<string, int>,
                                        recs: seq<Recommendation>, id: string, value: int)
    requires SheetConsistent(qs, responses, recs) && IsQuestionId(qs, id)
    ensures var clamped := Clamp(value, MaxScore(qs, id));
      var m := responses[id := clamped];
      var r := UpdateRecommendations(recs, FindQuestion(qs, id).value, clamped);
      && (forall x :: x in r ==> x.questionId in m && m[x.questionId] == x.score)
      && (forall k :: CountFor(r, k) <= 1)
  {
    var q := FindQuestion(qs, id).value;
    var clamped := Clamp(value, q.score);
    var m := responses[id := clamped];
    var r := UpdateRecommendations(recs, q, clamped);
    forall k
      ensures CountFor(r, k) <= 1
    {
      if k != id {
        assert CountFor(r, k) == CountFor(recs, k);
      }
    }
    forall x | x in r
      ensures x.questionId in m && m[x.questionId] == x.score
    {
      assert (x in recs && x.questionId != q.id) || x == Recommendation(q.id, q.topicId, clamped);
    }
  }

  /** Recording a score within a question's marks and bringing its recommendation in line keeps
      the sheet consistent. */
  lemma ScoreChangeKeepsConsistent(qs: seq<RubricQuestion>, responses: map<string, int>,
                                   recs: seq<Recommendation>, id: string, value: int)
    requires SheetConsistent(qs, responses, recs) && IsQuestionId(qs, id)
    ensures SheetConsistent(qs, responses[id := Clamp(value, MaxScore(qs, id))],
      UpdateRecommendations(recs, FindQuestion(qs, id).value, Clamp(value, MaxScore(qs, id))))
  {
    ScoreChangeKeepsScores(qs, responses, recs, id, value);
    ScoreChangeKeepsRecommendations(qs, responses, recs, id, value);
  }

  /** The grading sheet of one answer copy. */
  class GradingSheet {
    var questions: seq<RubricQuestion>
    var responses: map<string, int>
    var recommendations: seq<Recommendation>
    var totalScore: int
    var grade: GradeLabel

    /** The sheet is consistent and the total lies within the test's marks. */
    ghost predicate Valid()
      reads this
    {
      && SheetConsistent(questions, responses, recommendations)
      && 0 <= totalScore <= PossibleOf(questions)
    }

    /** A copy the server holds as graded was produced by this sheet: its recommendations name
        distinct questions of the test, each below full marks, and its score is within the marks. */
    static ghost predicate StoredConsistent(qs: seq<RubricQuestion>, stored: StoredGrading)
    {
      && (forall k :: CountFor(stored.recommendations, k) <= 1)
      && (forall x :: x in stored.recommendations ==>
            IsQuestionId(qs, x.questionId) && 0 <= x.score < MaxScore(qs, x.questionId))
      && 0 <= stored.score <= PossibleOf(qs)
    }

    /** Opening a copy: an ungraded copy starts empty, a graded one is pre-filled. */
    constructor (qs: seq<RubricQuestion>, stored: Option<StoredGrading>)
      requires DistinctIds(qs)
      requires stored.Some? ==> StoredConsistent(qs, stored.value)
      ensures Valid()
      ensures questions == qs
      ensures stored.None? ==> responses == map[] && recommendations == [] && totalScore == 0 && grade == NotGraded
      ensures stored.Some? ==>
        && recommendations == stored.value.recommendations
        && responses == PrefillAsWritten(stored.value.recommendations)
        && totalScore == stored.value.score && grade == Letter(stored.value.grade)
    {
      questions := qs;
      if stored.None? {
        responses := map[];
        recommendations := [];
        totalScore := 0;
        grade := NotGraded;
      } else {
        var recs := stored.value.recommendations;
        var m := PrefillAsWritten(recs);
        PrefillAsWrittenScores(recs);
        forall k | k in m
          ensures IsQuestionId(qs, k) && 0 <= m[k] <= MaxScore(qs, k)
          ensures CountFor(recs, k) == 1 <==> m[k] < MaxScore(qs, k)
        {
          var x :| x in recs && x.questionId == k;
          CountForPositive(recs, k);
        }
        recommendations := recs;
        responses := m;
        totalScore := stored.value.score;
        grade := Letter(stored.value.grade);
      }
    }

    /** `handleScoreChange`: the question's score becomes the clamped value and its
        recommendation is brought in line with it. */
    method ScoreChange(questionId: string, value: int)
      requires Valid() && IsQuestionId(questions, questionId)
      modifies this
      ensures Valid()
      ensures questions == old(questions) && totalScore == old(totalScore) && grade == old(grade)
      ensures responses == old(responses)[questionId := Clamp(value, MaxScore(questions, questionId))]
      ensures recommendations == UpdateRecommendations(old(recommendations),
        FindQuestion(questions, questionId).value, Clamp(value, MaxScore(questions, questionId)))
    {
      var q := FindQuestion(questions, questionId).value;
      var clamped := Clamp(value, q.score);
      ScoreChangeKeepsConsistent(questions, responses, recommendations, questionId, value);
      responses := responses[questionId := clamped];
      recommendations := UpdateRecommendations(recommendations, q, clamped);
    }

    /** `handleMarkAsRight`: full marks, and no recommendation for the question. */
    method MarkAsRight(questionId: string)
      requires Valid() && IsQuestionId(questions, questionId)
      modifies this
      ensures Valid()
      ensures questions == old(questions) && totalScore == old(totalScore) && grade == old(grade)
      ensures responses == old(responses)[questionId := MaxScore(questions, questionId)]
      ensures CountFor(recommendations, questionId) == 0
      ensures forall k :: k != questionId ==> CountFor(recommendations, k) == CountFor(old(recommendations), k)
    {
      ScoreChange(questionId, FindQuestion(questions, questionId).value.score);
    }

    /** `handleMarkAsWrong`: zero, with a recommendation unless the question is worth nothing. */
    method MarkAsWrong(questionId: string)
      requires Valid() && IsQuestionId(questions, questionId)
      modifies this
      ensures Valid()
      ensures questions == old(questions) && totalScore == old(totalScore) && grade == old(grade)
      ensures responses == old(responses)[questionId := 0]
      ensures CountFor(recommendations, questionId) == if MaxScore(questions, questionId) > 0 then 1 else 0
      ensures forall k :: k != questionId ==> CountFor(recommendations, k) == CountFor(old(recommendations), k)
    {
      ScoreChange(questionId, 0);
    }

    /** `calculateGradeAndTotal`: the sum of the recorded scores over the test's questions and its
        letter grade, stored in `totalScore` and `grade`. */
    method CalculateGradeAndTotal() returns (total: int, g: Grade7)
      requires Valid()
      modifies this
      ensures Valid()
      ensures total == TotalOf(questions, responses) && 0 <= total <= PossibleOf(questions)
      ensures g == RubricGrade(total, PossibleOf(questions))
      ensures totalScore == total && grade == Letter(g)
      ensures questions == old(questions) && responses == old(responses)
      ensures recommendations == old(recommendations)
    {
      var possible := PossibleOf(questions);
      total := AccumulateTotal(questions, responses);
      TotalWithinPossible(questions, responses);
      g := RubricGrade(total, possible);
      totalScore := total;
      grade := Letter(g);
    }

    /** `handleSubmit`: the body carries the freshly computed total and grade with the current
        recommendations. */
    method Submit() returns (body: GradingBody)
      requires Valid()
      modifies this
      ensures Valid()
      ensures body == GradingBody(TotalOf(questions, responses), recommendations,
        RubricGrade(TotalOf(questions, responses), PossibleOf(questions)))
      ensures totalScore == body.score && grade == Letter(body.grade)
      ensures questions == old(questions) && responses == old(responses)
      ensures recommendations == old(recommendations)
    {
      var total, g := CalculateGradeAndTotal();
      body := GradingBody(total, recommendations, g);
    }

    /** `currentPercentage`: the rounded percentage of the stored total, 0 without marks. */
    function CurrentPercentage(): (r: nat)
      requires Valid()
      reads this
      ensures PossibleOf(questions) == 0 ==> r == 0
      ensures r <= 100
    {
      GetPercentage(totalScore, PossibleOf(questions))
    }
  }

  /** Every question was scored while grading: re-opening the stored copy with the corrected
      pre-fill restores exactly the recorded scores, so re-submitting it unchanged keeps the total. */
  lemma PrefillRestoresScores(qs: seq<RubricQuestion>, responses: map<string, int>, recs: seq<Recommendation>)
    requires DistinctIds(qs)
    requires forall k :: k in responses <==> IsQuestionId(qs, k)
    requires forall k :: k in responses ==> 0 <= responses[k] <= MaxScore(qs, k)
    requires forall x :: x in recs ==> x.questionId in responses && responses[x.questionId] == x.score
    requires forall k :: CountFor(recs, k) <= 1
    requires forall k :: k in responses ==> (CountFor(recs, k) == 1 <==> responses[k] < MaxScore(qs, k))
    ensures Prefill(qs, recs) == responses
    ensures TotalOf(qs, Prefill(qs, recs)) == TotalOf(qs, responses)
  {
    var m := Prefill(qs, recs);
    forall k | k in responses ensures m[k] == responses[k] {
      if CountFor(recs, k) == 1 {
        CountForPositive(recs, k);
      }
    }
  }
}
