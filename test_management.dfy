/** The teacher's test list of `TestManagement.js`: per-test statistics, the search and status
    filter, local removal of a deleted test, and the summary sums. An absent `results` or
    `questions` array counts as empty. */
module TestManagement {
  import opened Lists
  import opened Text
  import opened Percent

  datatype Result = Result(student: string, score: int)

  datatype ManagedTest = ManagedTest(id: string, name: string, results: seq<Result>, questionCount: nat)

  /** `getTestStats`: the head count, the mean score rounded to two decimals, and the completion
      rate, which is the head count again. */
  datatype TestStats = TestStats(totalStudents: nat, averageScore: real, completionRate: nat)

  function ScoreOf(): Result -> int
  {
    (r: Result) => r.score
  }

  /** `getTestStats`: with no results the average is 0; otherwise it is the mean score to the
      nearest hundredth. */
  function TestStatsOf(t: ManagedTest): (s: TestStats)
    ensures s.totalStudents == |t.results| && s.completionRate == |t.results|
    ensures |t.results| == 0 ==> s.averageScore == 0.0
    ensures |t.results| > 0 ==>
      var mean := SumOf(t.results, ScoreOf()) as real / |t.results| as real;
      && s.averageScore * 100.0 == (s.averageScore * 100.0).Floor as real
      && s.averageScore * 100.0 <= mean * 100.0 + 0.5 < s.averageScore * 100.0 + 1.0
  {
    var n := |t.results|;
    var average := if n > 0 then SumOf(t.results, ScoreOf()) as real / n as real else 0.0;
    var rounded := RoundReal(average * 100.0);
    TestStats(n, rounded as real / 100.0, n)
  }

  // ---------------------------------------------------------------- search and status filter

  /** `matchesFilter`: `all` passes every test, `active` those with results, `draft` those without;
      any other value passes none. */
  predicate MatchesStatus(t: ManagedTest, status: string)
  {
    || status == "all"
    || (status == "active" && |t.results| > 0)
    || (status == "draft" && |t.results| == 0)
  }

  function Passes(term: string, status: string): ManagedTest -> bool
  {
    (t: ManagedTest) => MatchesSearch(t.name, term) && MatchesStatus(t, status)
  }

  function SearchFor(term: string): ManagedTest -> bool
  {
    (t: ManagedTest) => MatchesSearch(t.name, term)
  }

  /** `filteredTests`. */
  function FilteredTests(tests: seq<ManagedTest>, term: string, status: string): (r: seq<ManagedTest>)
    ensures forall t :: t in r <==> t in tests && MatchesSearch(t.name, term) && MatchesStatus(t, status)
    ensures |r| <= |tests|
  {
    Filter(tests, Passes(term, status))
  }

  /** The `active` and `draft` filters split what the search keeps: every test found under `all`
      is found under exactly one of them. */
  lemma ActiveDraftPartition(tests: seq<ManagedTest>, term: string)
    ensures |FilteredTests(tests, term, "active")| + |FilteredTests(tests, term, "draft")|
      == |FilteredTests(tests, term, "all")|
  {
    var found := Filter(tests, SearchFor(term));
    var active := (t: ManagedTest) => |t.results| > 0;
    var draft := (t: ManagedTest) => |t.results| == 0;
    FilterFilter(tests, SearchFor(term), active, Passes(term, "active"));
    FilterFilter(tests, SearchFor(term), draft, Passes(term, "draft"));
    FilterFilter(tests, SearchFor(term), (t: ManagedTest) => true, Passes(term, "all"));
    FilterKeepsAll(found, (t: ManagedTest) => true);
    FilterPartition(found, active, draft);
  }

  // ---------------------------------------------------------------- deletion

  function OtherThan(testId: string): ManagedTest -> bool
  {
    (t: ManagedTest) => t.id != testId
  }

  /** The list left after deleting `testId`: no test with that id remains, every other test is
      kept, and deleting again changes nothing. */
  lemma DeleteRemovesExactly(tests: seq<ManagedTest>, testId: string)
    ensures var rest := Filter(tests, OtherThan(testId));
      && (forall t :: t in rest ==> t.id != testId)
      && (forall t :: t in tests && t.id != testId ==> t in rest)
      && Filter(rest, OtherThan(testId)) == rest
  {
    var rest := Filter(tests, OtherThan(testId));
    assert forall i :: 0 <= i < |rest| ==> OtherThan(testId)(rest[i]);
    FilterKeepsAll(rest, OtherThan(testId));
  }

  /** A test absent from the list is deleted without changing it. */
  lemma DeleteAbsentIsNoOp(tests: seq<ManagedTest>, testId: string)
    requires forall i :: 0 <= i < |tests| ==> tests[i].id != testId
    ensures Filter(tests, OtherThan(testId)) == tests
  {
    FilterKeepsAll(tests, OtherThan(testId));
  }

  /** The page's list of the teacher's tests. */
  class TestList {
    var tests: seq<ManagedTest>

    constructor(teacherTests: seq<ManagedTest>)
      ensures tests == teacherTests
    {
      tests := teacherTests;
    }

    /** `deleteTest`: nothing happens unless the user confirms and the server deletes the test;
        then the local list drops every test with that id and keeps the rest in order. */
    method DeleteTest(testId: string, confirmed: bool, serverDeleted: bool)
      modifies this
      ensures tests == if confirmed && serverDeleted then Filter(old(tests), OtherThan(testId)) else old(tests)
    {
      if !confirmed {
        return;
      }
      if serverDeleted {
        tests := Filter(tests, OtherThan(testId));
      }
    }
  }

  // ---------------------------------------------------------------- summary

  function ResultCount(): ManagedTest -> int
  {
    (t: ManagedTest) => |t.results|
  }

  function QuestionCount(): ManagedTest -> int
  {
    (t: ManagedTest) => t.questionCount
  }

  datatype Summary = Summary(totalTests: nat, activeTests: nat, totalSubmissions: int, totalQuestions: int)

  /** The summary cards under the list. */
  function SummaryOf(tests: seq<ManagedTest>): (s: Summary)
    ensures s.totalTests == |tests| && s.activeTests <= s.totalTests
    ensures s.activeTests == |Filter(tests, HasResultsFn())|
    ensures s.totalSubmissions == SumOf(tests, ResultCount()) && s.totalQuestions == SumOf(tests, QuestionCount())
  {
    Summary(|tests|, |Filter(tests, HasResultsFn())|, SumOf(tests, ResultCount()), SumOf(tests, QuestionCount()))
  }

  function HasResultsFn(): ManagedTest -> bool
  {
    (t: ManagedTest) => |t.results| > 0
  }

  /** Every active test has at least one submission, and there are no submissions exactly when no
      test is active. */
  lemma {:induction false} ActiveTestsBoundSubmissions(tests: seq<ManagedTest>)
    ensures |Filter(tests, HasResultsFn())| <= SumOf(tests, ResultCount())
    ensures |Filter(tests, HasResultsFn())| == 0 <==> SumOf(tests, ResultCount()) == 0
  {
    if tests != [] {
      var n := |tests| - 1;
      ActiveTestsBoundSubmissions(tests[..n]);
      assert tests == tests[..n] + [tests[n]];
      FilterAppend(tests[..n], [tests[n]], HasResultsFn());
      SumOfNonNegative(tests[..n], ResultCount());
    }
  }
}
