/** The teacher's home page of `TeacherDashboard.js`: the students drawn from the results, the
    recent-activity feed, the analytics over the teacher's tests and the newest tests. Dates are
    timestamps; an absent `results` array is an empty one. */
module TeacherDashboard {
  import opened Common
  import opened Lists
  import opened Percent

  datatype Student = Student(id: string, fullName: string, email: string)

  /** One submitted result; `student` is absent when the account was not populated. */
  datatype McqResult = McqResult(
    id: string, student: Option<Student>, score: int, submittedAt: int,
    correctAnswers: nat, totalQuestions: nat)

  /** An MCQ or a physical test; only MCQ tests' results are read on this page. */
  datatype Test = Test(id: string, name: string, createdAt: int, results: seq<McqResult>)

  /** A row of the students list. */
  datatype StudentRow = StudentRow(id: string, name: string, email: string, testsCompleted: nat, averageScore: int)

  /** An entry of the activity feed: a submitted result (its id is `test-` and the result's id)
      or a created test (`created-` and the test's id). */
  datatype Activity =
    | Submission(id: string, score: int, date: int, testId: string, studentName: Option<string>)
    | Creation(id: string, date: int, testId: string)

  datatype Grade5 = A | B | C | D | F

  /** A bar of the grade chart. */
  datatype GradeBar = GradeBar(grade: Grade5, count: nat)

  /** A point of the performance chart: `Test n`, the rounded mean percentage, the submissions. */
  datatype TestPoint = TestPoint(testNumber: nat, average: JsPercent, submissions: nat)

  datatype TeacherAnalytics = TeacherAnalytics(
    totalTests: nat, totalSubmissions: nat, averageScore: JsPercent, activeTests: nat,
    performanceData: seq<TestPoint>, gradeChart: seq<GradeBar>)

  /** Every result of the MCQ tests, test by test. */
  function AllResults(tests: seq<Test>): (rs: seq<McqResult>)
  {
    if tests == [] then [] else AllResults(tests[..|tests| - 1]) + tests[|tests| - 1].results
  }

  lemma AllResultsStep(tests: seq<Test>, i: nat)
    requires i < |tests|
    ensures AllResults(tests[..i + 1]) == AllResults(tests[..i]) + tests[i].results
  {
    assert tests[..i + 1][..i] == tests[..i];
  }

  // ---------------------------------------------------------------- students

  /** Whether a result names the student with this id. */
  predicate Names(r: McqResult, id: string)
  {
    r.student.Some? && r.student.value.id == id
  }

  /** The index of the first result naming `id`, or the number of results when none does. */
  function FirstIndex(rs: seq<McqResult>, id: string): (i: nat)
    ensures i <= |rs|
    ensures i < |rs| ==> Names(rs[i], id)
    ensures forall j :: 0 <= j < i ==> !Names(rs[j], id)
  {
    if rs == [] then 0
    else if Names(rs[0], id) then 0
    else
      var i := 1 + FirstIndex(rs[1..], id);
      assert forall j :: 1 <= j < |rs| ==> rs[j] == rs[1..][j - 1];
      i
  }

  /** The row a first sighting of a student creates. */
  function RowFor(s: Student): StudentRow
  {
    StudentRow(s.id, s.fullName, s.email, 0, 0)
  }

  function RowIds(rows: seq<StudentRow>): set<string>
  {
    set row | row in rows :: row.id
  }

  /** The map's values in insertion order after the results `rs` have been visited. */
  function Roster(rs: seq<McqResult>): seq<StudentRow>
  {
    if rs == [] then []
    else
      var before := Roster(rs[..|rs| - 1]);
      var r := rs[|rs| - 1];
      if r.student.Some? && r.student.value.id !in RowIds(before) then before + [RowFor(r.student.value)]
      else before
  }

  lemma RowIdsAppend(rows: seq<StudentRow>, row: StudentRow)
    ensures RowIds(rows + [row]) == RowIds(rows) + {row.id}
  {
    var all := rows + [row];
    assert row == all[|rows|];
    forall x | x in rows ensures x in all { var k :| 0 <= k < |rows| && rows[k] == x; assert all[k] == x; }
  }

  /** Visiting one more result adds a row exactly when it names an unseen student. */
  lemma RosterStep(seen: seq<McqResult>, r: McqResult)
    ensures Roster(seen + [r]) ==
      if r.student.Some? && r.student.value.id !in RowIds(Roster(seen)) then Roster(seen) + [RowFor(r.student.value)]
      else Roster(seen)
  {
    assert (seen + [r])[..|seen|] == seen;
  }

  /** The first sighting is the one index that satisfies `FirstIndex`'s contract. */
  lemma FirstIndexUnique(rs: seq<McqResult>, id: string, i: nat)
    requires i <= |rs|
    requires i < |rs| ==> Names(rs[i], id)
    requires forall j :: 0 <= j < i ==> !Names(rs[j], id)
    ensures i == FirstIndex(rs, id)
  {
  }

  /** Visiting one more result moves the first sighting of an id only if the id was unseen. */
  lemma FirstIndexAppend(rs: seq<McqResult>, r: McqResult, id: string)
    ensures FirstIndex(rs + [r], id) ==
      if FirstIndex(rs, id) < |rs| then FirstIndex(rs, id)
      else if Names(r, id) then |rs| else |rs| + 1
  {
    var k := FirstIndex(rs, id);
    var all := rs + [r];
    var i := if k < |rs| then k else if Names(r, id) then |rs| else |rs| + 1;
    assert forall j :: 0 <= j < |rs| ==> all[j] == rs[j];
    FirstIndexUnique(all, id, i);
  }

  /** Every student named by a result has a row. */
  lemma {:induction false} RosterCoversStudents(rs: seq<McqResult>)
    ensures forall i :: 0 <= i < |rs| && rs[i].student.Some? ==> rs[i].student.value.id in RowIds(Roster(rs))
  {
    if rs != [] {
      var n := |rs| - 1;
      RosterCoversStudents(rs[..n]);
      assert RowIds(Roster(rs[..n])) <= RowIds(Roster(rs));
      forall i | 0 <= i < n && rs[i].student.Some?
        ensures rs[i].student.value.id in RowIds(Roster(rs))
      {
        assert rs[..n][i] == rs[i];
      }
    }
  }

  /** Every row is built from the student of the first result naming its id. */
  lemma {:induction false} RosterRowsAreFirstSightings(rs: seq<McqResult>)
    ensures forall k :: 0 <= k < |Roster(rs)| ==>
      && FirstIndex(rs, Roster(rs)[k].id) < |rs|
      && Roster(rs)[k] == RowFor(rs[FirstIndex(rs, Roster(rs)[k].id)].student.value)
  {
    if rs != [] {
      var n := |rs| - 1;
      var init, r := rs[..n], rs[n];
      assert rs == init + [r];
      RosterRowsAreFirstSightings(init);
      var before := Roster(init);
      forall k | 0 <= k < |before|
        ensures FirstIndex(rs, before[k].id) == FirstIndex(init, before[k].id) < n
        ensures rs[FirstIndex(rs, before[k].id)] == init[FirstIndex(init, before[k].id)]
      {
        FirstIndexAppend(init, r, before[k].id);
      }
      if r.student.Some? && r.student.value.id !in RowIds(before) {
        var id := r.student.value.id;
        RosterCoversStudents(init);
        FirstIndexAppend(init, r, id);
        assert FirstIndex(rs, id) == n;
        assert Roster(rs) == before + [RowFor(r.student.value)];
      } else {
        assert Roster(rs) == before;
      }
    }
  }

  /** The rows follow the order of first sightings, so no id has two rows. */
  lemma {:induction false} RosterInSightingOrder(rs: seq<McqResult>)
    ensures forall k1, k2 :: 0 <= k1 < k2 < |Roster(rs)| ==>
      FirstIndex(rs, Roster(rs)[k1].id) < FirstIndex(rs, Roster(rs)[k2].id)
  {
    if rs != [] {
      var n := |rs| - 1;
      var init, r := rs[..n], rs[n];
      assert rs == init + [r];
      RosterInSightingOrder(init);
      var before := Roster(init);
      forall k | 0 <= k < |before|
        ensures FirstIndex(rs, before[k].id) == FirstIndex(init, before[k].id) < n
      {
        assert FirstIndex(init, before[k].id) < n by { RosterRowsAreFirstSightings(init); }
        FirstIndexAppend(init, r, before[k].id);
      }
      if r.student.Some? && r.student.value.id !in RowIds(before) {
        assert FirstIndex(init, r.student.value.id) == n by {
          RosterCoversStudents(init);
          FirstIndexAppend(init, r, r.student.value.id);
        }
        FirstIndexAppend(init, r, r.student.value.id);
        var after := before + [RowFor(r.student.value)];
        assert Roster(rs) == after;
        assert FirstIndex(rs, after[|before|].id) == n;
        forall k1, k2 | 0 <= k1 < k2 < |after|
          ensures FirstIndex(rs, after[k1].id) < FirstIndex(rs, after[k2].id)
        {
          assert after[k1] == before[k1];
          if k2 < |before| {
            assert after[k2] == before[k2];
          }
        }
      } else {
        assert Roster(rs) == before;
      }
    }
  }

  /** The students list: one row per student id named by a result, in order of first sighting,
      each the first sighting's name and email with nothing completed and no average yet. */
  lemma RosterFirstSightings(rs: seq<McqResult>)
    ensures forall k :: 0 <= k < |Roster(rs)| ==>
      && FirstIndex(rs, Roster(rs)[k].id) < |rs|
      && Roster(rs)[k] == RowFor(rs[FirstIndex(rs, Roster(rs)[k].id)].student.value)
    ensures forall i :: 0 <= i < |rs| && rs[i].student.Some? ==> rs[i].student.value.id in RowIds(Roster(rs))
    ensures forall k1, k2 :: 0 <= k1 < k2 < |Roster(rs)| ==> Roster(rs)[k1].id != Roster(rs)[k2].id
  {
    RosterCoversStudents(rs);
    RosterRowsAreFirstSightings(rs);
    RosterInSightingOrder(rs);
  }

  /** `extractStudents`: the `Map` is kept as its rows in insertion order together with its
      key set. */
  method ExtractStudents(tests: seq<Test>) returns (rows: seq<StudentRow>)
    ensures rows == Roster(AllResults(tests))
  {
    rows := [];
    var keys: set<string> := {};
    var i := 0;
    while i < |tests|
      invariant 0 <= i <= |tests|
      invariant rows == Roster(AllResults(tests[..i]))
      invariant keys == RowIds(rows)
    {
      var results := tests[i].results;
      assert AllResults(tests[..i]) + results[..0] == AllResults(tests[..i]);
      var j := 0;
      while j < |results|
        invariant 0 <= j <= |results|
        invariant rows == Roster(AllResults(tests[..i]) + results[..j])
        invariant keys == RowIds(rows)
      {
        var r := results[j];
        ghost var seen := AllResults(tests[..i]) + results[..j];
        assert AllResults(tests[..i]) + results[..j + 1] == seen + [r];
        RosterStep(seen, r);
        if r.student.Some? && r.student.value.id !in keys {
          RowIdsAppend(rows, RowFor(r.student.value));
          rows := rows + [RowFor(r.student.value)];
          keys := keys + {r.student.value.id};
        }
        j := j + 1;
      }
      assert results[..j] == results;
      AllResultsStep(tests, i);
      i := i + 1;
    }
    assert tests[..i] == tests;
  }

  // ---------------------------------------------------------------- activity feed

  function SubmissionOf(t: Test, r: McqResult): Activity
  {
    Submission("test-" + r.id, r.score, r.submittedAt, t.id,
      if r.student.Some? then Some(r.student.value.fullName) else None)
  }

  function CreationOf(t: Test): Activity
  {
    Creation("created-" + t.id, t.createdAt, t.id)
  }

  /** The submissions of one test, in result order. */
  function TestSubmissions(t: Test): (acts: seq<Activity>)
    ensures |acts| == |t.results|
    ensures forall j :: 0 <= j < |t.results| ==> acts[j] == SubmissionOf(t, t.results[j])
  {
    seq(|t.results|, j requires 0 <= j < |t.results| => SubmissionOf(t, t.results[j]))
  }

  function Submissions(tests: seq<Test>): seq<Activity>
  {
    if tests == [] then [] else Submissions(tests[..|tests| - 1]) + TestSubmissions(tests[|tests| - 1])
  }

  function Creations(tests: seq<Test>): (acts: seq<Activity>)
    ensures |acts| == |tests|
    ensures forall k :: 0 <= k < |tests| ==> acts[k] == CreationOf(tests[k])
  {
    seq(|tests|, k requires 0 <= k < |tests| => CreationOf(tests[k]))
  }

  /** The feed before sorting: the submissions test by test, then a creation per MCQ test and
      per physical test. */
  function Activities(tests: seq<Test>, physicalTests: seq<Test>): seq<Activity>
  {
    Submissions(tests) + Creations(tests + physicalTests)
  }

  /** `b.date - a.date <= 0`: `a` may come before `b`. */
  function NewerFirst(): (Activity, Activity) -> bool
  {
    (a: Activity, b: Activity) => a.date >= b.date
  }

  lemma NewerFirstIsPreorder()
    ensures TotalPreorder(NewerFirst())
  {
  }

  lemma {:induction false} SubmissionsCount(tests: seq<Test>)
    ensures |Submissions(tests)| == |AllResults(tests)|
  {
    if tests != [] {
      SubmissionsCount(tests[..|tests| - 1]);
    }
  }

  /** Before truncation the feed holds one entry per result and one per MCQ or physical test. */
  lemma ActivitiesCount(tests: seq<Test>, physicalTests: seq<Test>)
    ensures |Activities(tests, physicalTests)| == |AllResults(tests)| + |tests| + |physicalTests|
  {
    SubmissionsCount(tests);
  }

  /** The feed newest first, cut to eight: sorted by date, drawn from the
      activities, and no dropped activity is newer than a kept one. */
  function RecentActivity(tests: seq<Test>, physicalTests: seq<Test>): (feed: seq<Activity>)
    ensures |feed| == Min(8, |Activities(tests, physicalTests)|)
    ensures forall i, j :: 0 <= i < j < |feed| ==> feed[i].date >= feed[j].date
    ensures multiset(feed) <= multiset(Activities(tests, physicalTests))
    ensures forall x, y :: x in feed && y in multiset(Activities(tests, physicalTests)) - multiset(feed) ==>
      x.date >= y.date
  {
    NewerFirstIsPreorder();
    TopK(Activities(tests, physicalTests), NewerFirst(), 8)
  }

  /** The first loop of `generateRecentActivity`: a submission per result, test by test. */
  method CollectSubmissions(tests: seq<Test>) returns (activities: seq<Activity>)
    ensures activities == Submissions(tests)
  {
    activities := [];
    var i := 0;
    while i < |tests|
      invariant 0 <= i <= |tests|
      invariant activities == Submissions(tests[..i])
    {
      var t := tests[i];
      var j := 0;
      while j < |t.results|
        invariant 0 <= j <= |t.results|
        invariant activities == Submissions(tests[..i]) + TestSubmissions(t)[..j]
      {
        assert TestSubmissions(t)[..j + 1] == TestSubmissions(t)[..j] + [SubmissionOf(t, t.results[j])];
        activities := activities + [SubmissionOf(t, t.results[j])];
        j := j + 1;
      }
      assert TestSubmissions(t)[..j] == TestSubmissions(t);
      assert tests[..i + 1][..i] == tests[..i];
      i := i + 1;
    }
    assert tests[..i] == tests;
  }

  /** The second loop: a creation per MCQ and physical test, pushed after the submissions. */
  method AppendCreations(before: seq<Activity>, all: seq<Test>) returns (activities: seq<Activity>)
    ensures activities == before + Creations(all)
  {
    activities := before;
    var k := 0;
    while k < |all|
      invariant 0 <= k <= |all|
      invariant activities == before + Creations(all[..k])
    {
      assert Creations(all[..k + 1]) == Creations(all[..k]) + [CreationOf(all[k])];
      activities := activities + [CreationOf(all[k])];
      k := k + 1;
    }
    assert all[..k] == all;
  }

  /** `generateRecentActivity`: pushes the submissions and creations, then sorts and slices. */
  method GenerateRecentActivity(tests: seq<Test>, physicalTests: seq<Test>) returns (feed: seq<Activity>)
    ensures feed == RecentActivity(tests, physicalTests)
  {
    var submissions := CollectSubmissions(tests);
    var activities := AppendCreations(submissions, tests + physicalTests);
    NewerFirstIsPreorder();
    feed := TopK(activities, NewerFirst(), 8);
  }

  // ---------------------------------------------------------------- analytics

  /** `test.results?.length || 0`, summed over the tests. */
  function SubmissionTotal(tests: seq<Test>): (n: nat)
  {
    if tests == [] then 0 else SubmissionTotal(tests[..|tests| - 1]) + |tests[|tests| - 1].results|
  }

  lemma {:induction false} SubmissionTotalCountsResults(tests: seq<Test>)
    ensures SubmissionTotal(tests) == |AllResults(tests)|
  {
    if tests != [] {
      SubmissionTotalCountsResults(tests[..|tests| - 1]);
    }
  }

  predicate HasResults(t: Test)
  {
    |t.results| > 0
  }

  /** `activeTests`: the tests with at least one result. */
  function ActiveTests(tests: seq<Test>): (n: nat)
    ensures n <= |tests|
  {
    |Filter(tests, HasResults)|
  }

  /** No test is active exactly when nothing was submitted. */
  lemma {:induction false} NoActiveTestIffNoSubmission(tests: seq<Test>)
    ensures ActiveTests(tests) == 0 <==> SubmissionTotal(tests) == 0
  {
    if tests != [] {
      var n := |tests| - 1;
      NoActiveTestIffNoSubmission(tests[..n]);
      assert tests == tests[..n] + [tests[n]];
      FilterAppend(tests[..n], [tests[n]], HasResults);
    }
  }

  /** The sum of `(correctAnswers / totalQuestions) * 100` over the results. */
  function PercentTotal(rs: seq<McqResult>): JsNumber
  {
    if rs == [] then Num(0.0)
    else Plus(PercentTotal(rs[..|rs| - 1]), PercentOf(rs[|rs| - 1].correctAnswers, rs[|rs| - 1].totalQuestions))
  }

  /** Results whose counts make a percentage: a positive total, no more correct than asked. */
  predicate WellFormed(r: McqResult)
  {
    0 < r.totalQuestions && r.correctAnswers <= r.totalQuestions
  }

  /** Over well-formed results the sum is a number between 0 and 100 per result. */
  lemma {:induction false} PercentTotalBounds(rs: seq<McqResult>)
    requires forall i :: 0 <= i < |rs| ==> WellFormed(rs[i])
    ensures PercentTotal(rs).Num?
    ensures 0.0 <= PercentTotal(rs).v <= 100.0 * |rs| as real
  {
    if rs != [] {
      PercentTotalBounds(rs[..|rs| - 1]);
    }
  }

  /** A result of zero correct answers out of zero questions makes the sum `NaN`. */
  lemma {:induction false} PercentTotalNaN(rs: seq<McqResult>, i: nat)
    requires i < |rs| && rs[i].totalQuestions == 0 && rs[i].correctAnswers == 0
    ensures PercentTotal(rs).NotANumber?
  {
    if i < |rs| - 1 {
      PercentTotalNaN(rs[..|rs| - 1], i);
    }
  }

  /** `Math.round(sum / count)`, or 0 with no results. */
  function MeanPercent(rs: seq<McqResult>): (m: JsPercent)
    ensures rs == [] ==> m == Finite(0)
  {
    if rs == [] then Finite(0) else RoundNumber(Over(PercentTotal(rs), |rs|))
  }

  /** Over well-formed results the rounded mean is a whole percentage in `[0, 100]`. */
  lemma MeanPercentBounds(rs: seq<McqResult>)
    requires forall i :: 0 <= i < |rs| ==> WellFormed(rs[i])
    ensures MeanPercent(rs).Finite?
    ensures 0 <= MeanPercent(rs).value <= 100
  {
    PercentTotalBounds(rs);
    if rs != [] {
      var mean := Over(PercentTotal(rs), |rs|).v;
      var n := |rs| as real;
      assert mean * n == PercentTotal(rs).v;
      assert 0.0 <= mean <= 100.0 by {
        MeanWithinPercent(mean, n, PercentTotal(rs).v);
      }
    }
  }

  /** The five buckets, on the unrounded percentage. */
  function GradeOf(r: McqResult): Grade5
  {
    var p := PercentOf(r.correctAnswers, r.totalQuestions);
    if NumberAtLeast(p, 90) then A
    else if NumberAtLeast(p, 80) then B
    else if NumberAtLeast(p, 70) then C
    else if NumberAtLeast(p, 60) then D
    else F
  }

  /** The buckets in cross-multiplied form: A from 90, B from 80, C from 70, D from 60 percent;
      a zero-question result is an A when it claims a correct answer and an F otherwise. */
  lemma GradeThresholds(r: McqResult)
    ensures var c, t := r.correctAnswers, r.totalQuestions;
      && (GradeOf(r) == A <==> PercentAtLeast(c, t, 90))
      && (GradeOf(r) == B <==> PercentAtLeast(c, t, 80) && !PercentAtLeast(c, t, 90))
      && (GradeOf(r) == C <==> PercentAtLeast(c, t, 70) && !PercentAtLeast(c, t, 80))
      && (GradeOf(r) == D <==> PercentAtLeast(c, t, 60) && !PercentAtLeast(c, t, 70))
      && (GradeOf(r) == F <==> !PercentAtLeast(c, t, 60))
  {
    var c, t := r.correctAnswers, r.totalQuestions;
    PercentOfAtLeast(c, t, 90);
    PercentOfAtLeast(c, t, 80);
    PercentOfAtLeast(c, t, 70);
    PercentOfAtLeast(c, t, 60);
    if PercentAtLeast(c, t, 90) { PercentAtLeastAntitone(c, t, 80, 90); }
    if PercentAtLeast(c, t, 80) { PercentAtLeastAntitone(c, t, 70, 80); }
    if PercentAtLeast(c, t, 70) { PercentAtLeastAntitone(c, t, 60, 70); }
  }

  /** The number of results in grade `g`. */
  function CountGrade(rs: seq<McqResult>, g: Grade5): (n: nat)
    ensures n <= |rs|
  {
    if rs == [] then 0
    else CountGrade(rs[..|rs| - 1], g) + (if GradeOf(rs[|rs| - 1]) == g then 1 else 0)
  }

  /** The grade chart: the five counts, in the key order A, B, C, D, F of the object literal. */
  function GradeChart(rs: seq<McqResult>): (bars: seq<GradeBar>)
    ensures |bars| == 5
    ensures bars[0].grade == A && bars[1].grade == B && bars[2].grade == C
      && bars[3].grade == D && bars[4].grade == F
  {
    [GradeBar(A, CountGrade(rs, A)), GradeBar(B, CountGrade(rs, B)), GradeBar(C, CountGrade(rs, C)),
     GradeBar(D, CountGrade(rs, D)), GradeBar(F, CountGrade(rs, F))]
  }

  /** The five buckets partition the results. */
  lemma {:induction false} GradesPartition(rs: seq<McqResult>)
    ensures CountGrade(rs, A) + CountGrade(rs, B) + CountGrade(rs, C) + CountGrade(rs, D)
      + CountGrade(rs, F) == |rs|
  {
    if rs != [] {
      GradesPartition(rs[..|rs| - 1]);
    }
  }

  /** A performance point per test, for the first ten tests. */
  function PerformanceData(tests: seq<Test>): (points: seq<TestPoint>)
    ensures |points| == Min(10, |tests|)
    ensures forall i :: 0 <= i < |points| ==>
      points[i] == TestPoint(i + 1, MeanPercent(tests[i].results), |tests[i].results|)
  {
    seq(Min(10, |tests|), i requires 0 <= i < Min(10, |tests|) =>
      TestPoint(i + 1, MeanPercent(tests[i].results), |tests[i].results|))
  }

  /** The score loop: `totalScore` and `scoreCount` over every result. */
  method ScoreTotals(tests: seq<Test>) returns (totalScore: JsNumber, scoreCount: nat)
    ensures totalScore == PercentTotal(AllResults(tests))
    ensures scoreCount == |AllResults(tests)|
  {
    totalScore, scoreCount := Num(0.0), 0;
    var i := 0;
    while i < |tests|
      invariant 0 <= i <= |tests|
      invariant totalScore == PercentTotal(AllResults(tests[..i]))
      invariant scoreCount == |AllResults(tests[..i])|
    {
      var results := tests[i].results;
      assert AllResults(tests[..i]) + results[..0] == AllResults(tests[..i]);
      var j := 0;
      while j < |results|
        invariant 0 <= j <= |results|
        invariant totalScore == PercentTotal(AllResults(tests[..i]) + results[..j])
        invariant scoreCount == |AllResults(tests[..i]) + results[..j]|
      {
        ghost var seen := AllResults(tests[..i]) + results[..j];
        assert (seen + [results[j]])[..|seen|] == seen;
        assert AllResults(tests[..i]) + results[..j + 1] == seen + [results[j]];
        totalScore := Plus(totalScore, PercentOf(results[j].correctAnswers, results[j].totalQuestions));
        scoreCount := scoreCount + 1;
        j := j + 1;
      }
      assert results[..j] == results;
      AllResultsStep(tests, i);
      i := i + 1;
    }
    assert tests[..i] == tests;
  }

  /** The five counters agree with the grades of the results `rs`. */
  predicate Tallied(rs: seq<McqResult>, a: nat, b: nat, c: nat, d: nat, f: nat)
  {
    a == CountGrade(rs, A) && b == CountGrade(rs, B) && c == CountGrade(rs, C)
    && d == CountGrade(rs, D) && f == CountGrade(rs, F)
  }

  lemma CountGradeAppend(rs: seq<McqResult>, r: McqResult)
    ensures forall g :: CountGrade(rs + [r], g) == CountGrade(rs, g) + (if GradeOf(r) == g then 1 else 0)
  {
    assert (rs + [r])[..|rs|] == rs;
  }

  /** The grade loop: the five counters over every result. */
  method CountGrades(tests: seq<Test>) returns (a: nat, b: nat, c: nat, d: nat, f: nat)
    ensures Tallied(AllResults(tests), a, b, c, d, f)
    ensures a + b + c + d + f == SubmissionTotal(tests)
  {
    a, b, c, d, f := 0, 0, 0, 0, 0;
    var i := 0;
    while i < |tests|
      invariant 0 <= i <= |tests|
      invariant Tallied(AllResults(tests[..i]), a, b, c, d, f)
    {
      var results := tests[i].results;
      assert AllResults(tests[..i]) + results[..0] == AllResults(tests[..i]);
      var j := 0;
      while j < |results|
        invariant 0 <= j <= |results|
        invariant Tallied(AllResults(tests[..i]) + results[..j], a, b, c, d, f)
      {
        ghost var seen := AllResults(tests[..i]) + results[..j];
        assert AllResults(tests[..i]) + results[..j + 1] == seen + [results[j]];
        var r := results[j];
        CountGradeAppend(seen, r);
        var p := PercentOf(r.correctAnswers, r.totalQuestions);
        if NumberAtLeast(p, 90) { a := a + 1; }
        else if NumberAtLeast(p, 80) { b := b + 1; }
        else if NumberAtLeast(p, 70) { c := c + 1; }
        else if NumberAtLeast(p, 60) { d := d + 1; }
        else { f := f + 1; }
        j := j + 1;
      }
      assert results[..j] == results;
      AllResultsStep(tests, i);
      i := i + 1;
    }
    assert tests[..i] == tests;
    GradesPartition(AllResults(tests));
    SubmissionTotalCountsResults(tests);
  }

  /** `calculateAnalytics`. */
  method CalculateAnalytics(tests: seq<Test>, physicalTests: seq<Test>) returns (an: TeacherAnalytics)
    ensures an.totalTests == |tests| + |physicalTests|
    ensures an.totalSubmissions == |AllResults(tests)|
    ensures an.averageScore == MeanPercent(AllResults(tests))
    ensures an.totalSubmissions == 0 ==> an.averageScore == Finite(0)
    ensures an.activeTests == ActiveTests(tests)
    ensures an.activeTests == 0 <==> an.totalSubmissions == 0
    ensures an.performanceData == PerformanceData(tests) && |an.performanceData| <= 10
    ensures an.gradeChart == GradeChart(AllResults(tests))
    ensures an.gradeChart[0].count + an.gradeChart[1].count + an.gradeChart[2].count
      + an.gradeChart[3].count + an.gradeChart[4].count == an.totalSubmissions
  {
    var totalSubmissions := SubmissionTotal(tests);
    SubmissionTotalCountsResults(tests);
    var totalScore, scoreCount := ScoreTotals(tests);
    var averageScore := if scoreCount > 0 then RoundNumber(Over(totalScore, scoreCount)) else Finite(0);
    var a, b, c, d, f := CountGrades(tests);
    NoActiveTestIffNoSubmission(tests);
    an := TeacherAnalytics(|tests| + |physicalTests|, totalSubmissions, averageScore, ActiveTests(tests),
      PerformanceData(tests), [GradeBar(A, a), GradeBar(B, b), GradeBar(C, c), GradeBar(D, d), GradeBar(F, f)]);
  }

  // ---------------------------------------------------------------- newest tests

  /** `b.createdAt - a.createdAt <= 0`. */
  function CreatedNewerFirst(): (Test, Test) -> bool
  {
    (a: Test, b: Test) => a.createdAt >= b.createdAt
  }

  lemma CreatedNewerFirstIsPreorder()
    ensures TotalPreorder(CreatedNewerFirst())
  {
  }

  /** The MCQ tests followed by the physical tests, the list `getRecentTests` sorts. */
  function AllTests(tests: seq<Test>, physicalTests: seq<Test>): (all: seq<Test>)
    ensures |all| == |tests| + |physicalTests|
    ensures forall t :: t in all <==> t in tests || t in physicalTests
  {
    tests + physicalTests
  }

  /** `getRecentTests`: the five newest MCQ or physical tests, newest first, each one no older than
      any test left out. */
  function RecentTests(tests: seq<Test>, physicalTests: seq<Test>): (r: seq<Test>)
    ensures |r| == Min(5, |tests| + |physicalTests|)
    ensures forall i, j :: 0 <= i < j < |r| ==> r[i].createdAt >= r[j].createdAt
    ensures multiset(r) <= multiset(AllTests(tests, physicalTests))
    ensures forall x, y :: x in r && y in multiset(AllTests(tests, physicalTests)) - multiset(r) ==>
      x.createdAt >= y.createdAt
  {
    CreatedNewerFirstIsPreorder();
    TopK(AllTests(tests, physicalTests), CreatedNewerFirst(), 5)
  }
}
