/** The student's home page of `StudentDashboard.js`: the student's own results gathered from
    every test, the recent-activity feed, the performance summary, the upcoming tests and the
    quick statistics. Results name their student by id; dates are timestamps. */
module StudentDashboard {
  import opened Common
  import opened Lists
  import opened Percent

  datatype Result = Result(
    id: string, student: string, score: int, submittedAt: int, correctAnswers: nat, totalQuestions: nat)

  /** An MCQ or physical test; an absent `results` array is an empty one. */
  datatype Test = Test(id: string, name: string, results: seq<Result>)

  datatype Activity = Activity(id: string, testName: string, score: int, date: int, testId: string)

  /** One of the student's results with `Math.round((correct / total) * 100)`, unguarded. */
  datatype UserResult = UserResult(testName: string, score: int, percentage: JsPercent, date: int)

  datatype Point = Point(test: nat, score: JsPercent)

  datatype Performance = Performance(
    totalTests: nat, averageScore: JsPercent, recentTests: seq<UserResult>, performanceData: seq<Point>)

  datatype QuickStats = QuickStats(
    totalTests: nat, completedTests: nat, pendingTests: int, subjects: nat, averageScore: JsPercent)

  // ---------------------------------------------------------------- the student's results

  /** What the nested loop pushes for each of the student's results in `rs` of test `t`. */
  function OwnIn<X>(t: Test, rs: seq<Result>, user: string, mk: (Test, Result) -> X): seq<X>
  {
    if rs == [] then []
    else
      var before := OwnIn(t, rs[..|rs| - 1], user, mk);
      if rs[|rs| - 1].student == user then before + [mk(t, rs[|rs| - 1])] else before
  }

  /** What the nested loop pushes over all tests, test by test. */
  function Own<X>(tests: seq<Test>, user: string, mk: (Test, Result) -> X): seq<X>
  {
    if tests == [] then []
    else Own(tests[..|tests| - 1], user, mk) + OwnIn(tests[|tests| - 1], tests[|tests| - 1].results, user, mk)
  }

  /** The number of results the student has submitted, over all tests. */
  function OwnCount(tests: seq<Test>, user: string): nat
  {
    if tests == [] then 0
    else OwnCount(tests[..|tests| - 1], user) + |Filter(tests[|tests| - 1].results, ByUser(user))|
  }

  function ByUser(user: string): Result -> bool
  {
    (r: Result) => r.student == user
  }

  /** The nested `forEach` over the tests and their results, pushing `mk(test, result)` for each
      of the student's results; both `generateRecentActivity` and `calculatePerformance` run it. */
  method CollectOwn<X>(tests: seq<Test>, user: string, mk: (Test, Result) -> X) returns (xs: seq<X>)
    ensures xs == Own(tests, user, mk)
  {
    xs := [];
    var i := 0;
    while i < |tests|
      invariant 0 <= i <= |tests|
      invariant xs == Own(tests[..i], user, mk)
    {
      var t := tests[i];
      var j := 0;
      assert t.results[..0] == [];
      while j < |t.results|
        invariant 0 <= j <= |t.results|
        invariant xs == Own(tests[..i], user, mk) + OwnIn(t, t.results[..j], user, mk)
      {
        assert t.results[..j + 1][..j] == t.results[..j];
        if t.results[j].student == user {
          xs := xs + [mk(t, t.results[j])];
        }
        j := j + 1;
      }
      assert t.results[..j] == t.results;
      assert tests[..i + 1][..i] == tests[..i];
      i := i + 1;
    }
    assert tests[..i] == tests;
  }

  /** One item per result of the student in `rs`. */
  lemma {:induction false} OwnInCount<X>(t: Test, rs: seq<Result>, user: string, mk: (Test, Result) -> X)
    ensures |OwnIn(t, rs, user, mk)| == |Filter(rs, ByUser(user))|
  {
    if rs != [] {
      var n := |rs| - 1;
      OwnInCount(t, rs[..n], user, mk);
      assert rs == rs[..n] + [rs[n]];
      FilterAppend(rs[..n], [rs[n]], ByUser(user));
    }
  }

  /** Every item is made from one of the student's results in `rs`. */
  lemma {:induction false} OwnInMembers<X>(t: Test, rs: seq<Result>, user: string, mk: (Test, Result) -> X)
    ensures forall x :: x in OwnIn(t, rs, user, mk) ==> exists r :: r in rs && r.student == user && x == mk(t, r)
  {
    if rs != [] {
      var n := |rs| - 1;
      OwnInMembers(t, rs[..n], user, mk);
      assert forall r :: r in rs[..n] ==> r in rs;
      assert rs[n] in rs;
    }
  }

  /** As many items are gathered as the student has results. */
  lemma {:induction false} OwnCountSound<X>(tests: seq<Test>, user: string, mk: (Test, Result) -> X)
    ensures |Own(tests, user, mk)| == OwnCount(tests, user)
  {
    if tests != [] {
      var n := |tests| - 1;
      OwnCountSound(tests[..n], user, mk);
      OwnInCount(tests[n], tests[n].results, user, mk);
    }
  }

  /** Only the student's own results are gathered: each gathered item is made from a result of
      one of the tests whose `student` is the user. */
  lemma {:induction false} OwnMembers<X>(tests: seq<Test>, user: string, mk: (Test, Result) -> X)
    ensures forall x :: x in Own(tests, user, mk) ==>
      exists t, r :: t in tests && r in t.results && r.student == user && x == mk(t, r)
  {
    if tests != [] {
      var n := |tests| - 1;
      OwnMembers(tests[..n], user, mk);
      OwnInMembers(tests[n], tests[n].results, user, mk);
      assert forall t :: t in tests[..n] ==> t in tests;
      assert tests[n] in tests;
    }
  }

  // ---------------------------------------------------------------- activity feed

  function ActivityOf(): (Test, Result) -> Activity
  {
    (t: Test, r: Result) => Activity(r.id, t.name, r.score, r.submittedAt, t.id)
  }

  function NewerFirst(): (Activity, Activity) -> bool
  {
    (a: Activity, b: Activity) => a.date >= b.date
  }

  /** The student's submissions newest first, cut to five; no activity left
      out is newer than one kept. */
  function RecentActivity(tests: seq<Test>, user: string): (feed: seq<Activity>)
    ensures |feed| == Min(5, OwnCount(tests, user))
    ensures forall i, j :: 0 <= i < j < |feed| ==> feed[i].date >= feed[j].date
    ensures multiset(feed) <= multiset(Own(tests, user, ActivityOf()))
    ensures forall x, y :: x in feed && y in multiset(Own(tests, user, ActivityOf())) - multiset(feed) ==>
      x.date >= y.date
  {
    var activities := Own(tests, user, ActivityOf());
    assert |activities| == OwnCount(tests, user) by { OwnCountSound(tests, user, ActivityOf()); }
    assert TotalPreorder(NewerFirst());
    TopK(activities, NewerFirst(), 5)
  }

  /** `generateRecentActivity`. */
  method GenerateRecentActivity(tests: seq<Test>, user: string) returns (feed: seq<Activity>)
    ensures feed == RecentActivity(tests, user)
  {
    var activities := CollectOwn(tests, user, ActivityOf());
    assert TotalPreorder(NewerFirst());
    feed := TopK(activities, NewerFirst(), 5);
  }

  // ---------------------------------------------------------------- performance

  function UserResultOf(): (Test, Result) -> UserResult
  {
    (t: Test, r: Result) => UserResult(t.name, r.score, RoundJs(r.correctAnswers, r.totalQuestions), r.submittedAt)
  }

  /** A rounded percentage as a JavaScript number. */
  function AsNumber(p: JsPercent): JsNumber
  {
    match p
    case Finite(v) => Num(v as real)
    case Infinity => PosInf
    case NaN => NotANumber
  }

  /** `userResults.reduce((sum, r) => sum + r.percentage, 0)`. */
  function PercentSum(urs: seq<UserResult>): JsNumber
  {
    if urs == [] then Num(0.0) else Plus(PercentSum(urs[..|urs| - 1]), AsNumber(urs[|urs| - 1].percentage))
  }

  /** `Math.round(average)`, with the average 0 when there are no results. */
  function AverageScore(urs: seq<UserResult>): (m: JsPercent)
    ensures urs == [] ==> m == Finite(0)
    ensures urs != [] ==> m == RoundNumber(Over(PercentSum(urs), |urs|))
  {
    if urs == [] then Finite(0) else RoundNumber(Over(PercentSum(urs), |urs|))
  }

  /** The summary `calculatePerformance` returns for the gathered results. */
  function PerformanceOf(urs: seq<UserResult>): (p: Performance)
    ensures p.totalTests == |urs|
    ensures p.recentTests == urs[..Min(5, |urs|)]
    ensures |p.performanceData| == |urs|
    ensures forall i :: 0 <= i < |urs| ==> p.performanceData[i] == Point(i + 1, urs[i].percentage)
  {
    Performance(|urs|, AverageScore(urs), urs[..Min(5, |urs|)],
      seq(|urs|, i requires 0 <= i < |urs| => Point(i + 1, urs[i].percentage)))
  }

  /** `calculatePerformance`: the student's results, their count, the rounded average
      percentage (0 with none), the first five, and the chart numbered 1..n in result order. */
  method CalculatePerformance(tests: seq<Test>, user: string) returns (p: Performance)
    ensures p == PerformanceOf(Own(tests, user, UserResultOf()))
    ensures p.totalTests == OwnCount(tests, user)
    ensures p.totalTests == 0 ==> p.averageScore == Finite(0)
  {
    var userResults := CollectOwn(tests, user, UserResultOf());
    OwnCountSound(tests, user, UserResultOf());
    var averageScore := if |userResults| > 0 then Over(PercentSum(userResults), |userResults|) else Num(0.0);
    p := Performance(|userResults|, RoundNumber(averageScore), userResults[..Min(5, |userResults|)],
      seq(|userResults|, i requires 0 <= i < |userResults| => Point(i + 1, userResults[i].percentage)));
    assert |userResults| == 0 ==> RoundNumber(averageScore) == Finite(0);
  }

  /** A percentage in `[0, 100]`. */
  predicate InRange(p: JsPercent)
  {
    p.Finite? && 0 <= p.value <= 100
  }

  lemma {:induction false} PercentSumBounds(urs: seq<UserResult>)
    requires forall i :: 0 <= i < |urs| ==> InRange(urs[i].percentage)
    ensures PercentSum(urs).Num?
    ensures 0.0 <= PercentSum(urs).v <= 100.0 * |urs| as real
  {
    if urs != [] {
      PercentSumBounds(urs[..|urs| - 1]);
    }
  }

  /** The rounded average of whole percentages in `[0, 100]` is one too. */
  lemma AverageInRange(urs: seq<UserResult>)
    requires forall i :: 0 <= i < |urs| ==> InRange(urs[i].percentage)
    ensures InRange(AverageScore(urs))
  {
    if urs != [] {
      var sum := PercentSum(urs);
      assert sum.Num? && 0.0 <= sum.v <= 100.0 * |urs| as real by { PercentSumBounds(urs); }
      var avg := Over(sum, |urs|);
      MeanWithinPercent(avg.v, |urs| as real, sum.v);
      RoundedWithinPercent(avg.v, RoundNumber(avg).value);
    }
  }

  /** When every result has questions and no more correct answers than questions, each of the
      student's rounded percentages, and so their rounded average, is in `[0, 100]`. */
  lemma PerformanceInRange(tests: seq<Test>, user: string)
    requires forall t, r :: t in tests && r in t.results ==> r.totalQuestions > 0 && r.correctAnswers <= r.totalQuestions
    ensures forall i :: 0 <= i < |Own(tests, user, UserResultOf())| ==> InRange(Own(tests, user, UserResultOf())[i].percentage)
    ensures InRange(PerformanceOf(Own(tests, user, UserResultOf())).averageScore)
  {
    var urs := Own(tests, user, UserResultOf());
    OwnMembers(tests, user, UserResultOf());
    forall i | 0 <= i < |urs| ensures InRange(urs[i].percentage) {
      var x := urs[i];
      assert x in urs;
      var t, r :| t in tests && r in t.results && r.student == user && x == UserResultOf()(t, r);
    }
    AverageInRange(urs);
  }

  // ---------------------------------------------------------------- upcoming tests and quick stats

  predicate Taken(t: Test, user: string)
  {
    exists i :: 0 <= i < |t.results| && t.results[i].student == user
  }

  function TakenBy(user: string): Test -> bool
  {
    (t: Test) => Taken(t, user)
  }

  function NotTakenBy(user: string): Test -> bool
  {
    (t: Test) => !Taken(t, user)
  }

  /** `getUpcomingTests`: the first three MCQ or physical tests the student has not taken. */
  function UpcomingTests(tests: seq<Test>, physicalTests: seq<Test>, user: string): (r: seq<Test>)
    ensures |r| <= 3
    ensures forall i :: 0 <= i < |r| ==> !Taken(r[i], user)
    ensures |r| == Min(3, |Filter(tests + physicalTests, NotTakenBy(user))|)
    ensures r == Filter(tests + physicalTests, NotTakenBy(user))[..|r|]
  {
    var pending := Filter(tests + physicalTests, NotTakenBy(user));
    assert forall i :: 0 <= i < |pending| ==> NotTakenBy(user)(pending[i]);
    pending[..Min(3, |pending|)]
  }

  /** `getQuickStats` as written: `completedTests` is the number of the student's results, so a
      retaken test counts once per attempt. */
  function QuickStatsAsWritten(tests: seq<Test>, physicalTests: seq<Test>, subjects: nat, perf: Performance): (q: QuickStats)
    ensures q.totalTests == |tests| + |physicalTests|
    ensures q.completedTests == perf.totalTests
    ensures q.pendingTests + q.completedTests == q.totalTests
  {
    var total := |tests| + |physicalTests|;
    QuickStats(total, perf.totalTests, total - perf.totalTests, subjects, perf.averageScore)
  }

  /** A single test taken twice gives one test, two completed and minus one pending. */
  lemma RetakeMakesPendingNegative()
    ensures var u := "u";
      var t := Test("t", "Test", [Result("r1", u, 1, 1, 1, 2), Result("r2", u, 2, 2, 2, 2)]);
      var perf := PerformanceOf(Own([t], u, UserResultOf()));
      QuickStatsAsWritten([t], [], 0, perf).pendingTests == -1
  {
    var u := "u";
    var t := Test("t", "Test", [Result("r1", u, 1, 1, 1, 2), Result("r2", u, 2, 2, 2, 2)]);
    OwnCountSound([t], u, UserResultOf());
    assert [t][..0] == [];
    assert t.results == [t.results[0]] + [t.results[1]];
    FilterAppend([t.results[0]], [t.results[1]], ByUser(u));
    assert Filter(t.results, ByUser(u)) == t.results;
    assert OwnCount([t], u) == 2;
  }

  /** `getQuickStats` with `completedTests` counting the tests the student has taken: the
      pending tests are then exactly the untaken ones, never negative, and the first three of
      them are the upcoming tests. */
  function QuickStatsOf(tests: seq<Test>, physicalTests: seq<Test>, subjects: nat, perf: Performance, user: string): (q: QuickStats)
    ensures q.totalTests == |tests| + |physicalTests|
    ensures q.completedTests == |Filter(tests + physicalTests, TakenBy(user))|
    ensures q.pendingTests == |Filter(tests + physicalTests, NotTakenBy(user))| >= 0
    ensures q.pendingTests + q.completedTests == q.totalTests
    ensures |UpcomingTests(tests, physicalTests, user)| == Min(3, q.pendingTests)
  {
    var all := tests + physicalTests;
    var completed := |Filter(all, TakenBy(user))|;
    FilterPartition(all, TakenBy(user), NotTakenBy(user));
    QuickStats(|all|, completed, |all| - completed, subjects, perf.averageScore)
  }
}
