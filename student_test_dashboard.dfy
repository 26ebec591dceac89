/** The student's test list of `StudentTestDashboard.js`: which tests count as taken, the tab,
    search and subject filter applied to the MCQ and the physical list, and the statistics. */
module StudentTestDashboard {
  import opened Lists
  import opened Text
  import opened Percent

  datatype Result = Result(student: string)

  /** An MCQ or physical test; an absent `results` array is an empty one. */
  datatype Test = Test(id: string, name: string, subject: string, results: seq<Result>)

  datatype Stats = Stats(total: nat, completed: nat, pending: int, mcqTotal: nat, physicalTotal: nat)

  /** `hasUserTakenTest`: an MCQ test is taken when one of its results is the user's; a physical
      test never is. */
  predicate Taken(t: Test, isPhysical: bool, user: string)
  {
    !isPhysical && exists i :: 0 <= i < |t.results| && t.results[i].student == user
  }

  /** `matchesTab` for the tabs `all`, `mcq`, `physical`, `completed` and `pending`. */
  predicate MatchesTab(tab: string, isPhysical: bool, isTaken: bool)
  {
    || tab == "all"
    || (tab == "mcq" && !isPhysical)
    || (tab == "physical" && isPhysical)
    || (tab == "completed" && isTaken)
    || (tab == "pending" && !isTaken)
  }

  /** `matchesSubject`: no subject chosen passes everything; otherwise only a physical test's
      subject is compared. */
  predicate MatchesSubject(t: Test, isPhysical: bool, subject: string)
  {
    subject == "" || (if isPhysical then t.subject == subject else true)
  }

  predicate Shown(t: Test, isPhysical: bool, user: string, term: string, subject: string, tab: string)
  {
    MatchesSearch(t.name, term) && MatchesSubject(t, isPhysical, subject) && MatchesTab(tab, isPhysical, Taken(t, isPhysical, user))
  }

  function ShownFn(isPhysical: bool, user: string, term: string, subject: string, tab: string): Test -> bool
  {
    (t: Test) => Shown(t, isPhysical, user, term, subject, tab)
  }

  /** `filterTests`. */
  function FilterTests(tests: seq<Test>, isPhysical: bool, user: string, term: string, subject: string, tab: string): (r: seq<Test>)
    ensures forall t :: t in r <==> t in tests && Shown(t, isPhysical, user, term, subject, tab)
  {
    Filter(tests, ShownFn(isPhysical, user, term, subject, tab))
  }

  /** Under the `completed` tab exactly the taken tests the search and subject let through are
      shown, under `pending` exactly the untaken ones, and the two tabs split the `all` tab. */
  lemma CompletedPendingTabs(tests: seq<Test>, isPhysical: bool, user: string, term: string, subject: string)
    ensures forall t :: t in FilterTests(tests, isPhysical, user, term, subject, "completed") <==>
      t in FilterTests(tests, isPhysical, user, term, subject, "all") && Taken(t, isPhysical, user)
    ensures forall t :: t in FilterTests(tests, isPhysical, user, term, subject, "pending") <==>
      t in FilterTests(tests, isPhysical, user, term, subject, "all") && !Taken(t, isPhysical, user)
    ensures |FilterTests(tests, isPhysical, user, term, subject, "completed")|
      + |FilterTests(tests, isPhysical, user, term, subject, "pending")|
      == |FilterTests(tests, isPhysical, user, term, subject, "all")|
  {
    var all := ShownFn(isPhysical, user, term, subject, "all");
    var found := Filter(tests, all);
    var taken := (t: Test) => Taken(t, isPhysical, user);
    var untaken := (t: Test) => !Taken(t, isPhysical, user);
    FilterFilter(tests, all, taken, ShownFn(isPhysical, user, term, subject, "completed"));
    FilterFilter(tests, all, untaken, ShownFn(isPhysical, user, term, subject, "pending"));
    FilterPartition(found, taken, untaken);
  }

  /** On the physical list the `completed` tab is always empty. */
  lemma NoCompletedPhysicalTest(tests: seq<Test>, user: string, term: string, subject: string)
    ensures FilterTests(tests, true, user, term, subject, "completed") == []
  {
    FilterKeepsNone(tests, ShownFn(true, user, term, subject, "completed"));
  }

  function TakenFn(isPhysical: bool, user: string): Test -> bool
  {
    (t: Test) => Taken(t, isPhysical, user)
  }

  /** `getTestStats`: totals, completed and pending; physical tests never count as completed, so
      the completed tests are at most the MCQ tests and pending is never negative. */
  function TestStats(mcqTests: seq<Test>, physicalTests: seq<Test>, user: string): (s: Stats)
    ensures s.mcqTotal == |mcqTests| && s.physicalTotal == |physicalTests|
    ensures s.total == s.mcqTotal + s.physicalTotal
    ensures s.pending == s.total - s.completed
    ensures s.completed == |Filter(mcqTests, TakenFn(false, user))| <= s.mcqTotal
    ensures 0 <= s.pending
  {
    var completedMcq := |Filter(mcqTests, TakenFn(false, user))|;
    var completedPhysical := |Filter(physicalTests, TakenFn(true, user))|;
    assert completedPhysical == 0 by {
      FilterKeepsNone(physicalTests, TakenFn(true, user));
    }
    var total := |mcqTests| + |physicalTests|;
    Stats(total, completedMcq + completedPhysical, total - (completedMcq + completedPhysical), |mcqTests|, |physicalTests|)
  }

  /** The success rate card: `total > 0 ? Math.round((completed / total) * 100) : 0`. */
  function SuccessRate(s: Stats): (r: nat)
    requires s.completed <= s.total
    ensures s.total == 0 ==> r == 0
    ensures r <= 100
    ensures s.total > 0 ==> 2 * s.total * r <= 200 * s.completed + s.total < 2 * s.total * (r + 1)
  {
    GetPercentage(s.completed, s.total)
  }
}
