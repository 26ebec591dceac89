/** The teacher's list of physical answer copies in `TCHome.js`: the status badge, the search,
    status filter and sort of `filteredAndSortedData`, and the counts on the summary cards. */
module TCHome {
  import opened Common
  import opened Lists
  import opened Text

  /** One answer copy; `studentName` is the student's `fullName`, which may be absent, and a
      missing `score` is one the `|| 0` default replaces. Dates are integer timestamps. */
  datatype Submission = Submission(studentName: Option<string>, grade: string, isPassed: bool, score: Option<int>, updatedAt: int)

  const NotGraded := "Not graded"

  datatype Badge = PassedBadge | FailedBadge | PendingBadge

  /** `matchesStatus` for `All`, `Pending`, `Graded`, `Passed` and `Failed`; any other value lets
      nothing through. `Passed` looks only at `isPassed`. */
  predicate MatchesStatus(s: Submission, status: string)
  {
    || status == "All"
    || (status == "Pending" && s.grade == NotGraded)
    || (status == "Graded" && s.grade != NotGraded)
    || (status == "Passed" && s.isPassed)
    || (status == "Failed" && s.grade != NotGraded && !s.isPassed)
  }

  /** `getStatusBadge`: an ungraded copy is `Pending` whatever `isPassed` says. The badge agrees
      with the `Pending`, `Graded` and `Failed` filters on every copy, and with `Passed` on the
      graded ones. */
  function StatusBadge(s: Submission): (b: Badge)
    ensures b == PendingBadge <==> MatchesStatus(s, "Pending")
    ensures b != PendingBadge <==> MatchesStatus(s, "Graded")
    ensures b == FailedBadge <==> MatchesStatus(s, "Failed")
    ensures b == PassedBadge ==> MatchesStatus(s, "Passed")
    ensures MatchesStatus(s, "Graded") && MatchesStatus(s, "Passed") ==> b == PassedBadge
  {
    if s.grade != NotGraded then
      if s.isPassed then PassedBadge else FailedBadge
    else PendingBadge
  }

  /** `matchesSearch`: a copy without a student name never matches. */
  predicate MatchesName(s: Submission, term: string)
  {
    s.studentName.Some? && MatchesSearch(s.studentName.value, term)
  }

  function Keeps(term: string, status: string): Submission -> bool
  {
    (s: Submission) => MatchesName(s, term) && MatchesStatus(s, status)
  }

  function NameOf(s: Submission): string
  {
    s.studentName.GetOr("")
  }

  /** `a.student.fullName.localeCompare(b.student.fullName)`, taken as code-unit order. */
  function ByName(): (Submission, Submission) -> bool
  {
    (a: Submission, b: Submission) => LexLe(NameOf(a), NameOf(b))
  }

  /** `(b.score || 0) - (a.score || 0)`: higher scores first. */
  function ByScore(): (Submission, Submission) -> bool
  {
    (a: Submission, b: Submission) => a.score.GetOr(0) >= b.score.GetOr(0)
  }

  /** `new Date(b.updatedAt) - new Date(a.updatedAt)`: most recently updated first. */
  function ByDate(): (Submission, Submission) -> bool
  {
    (a: Submission, b: Submission) => a.updatedAt >= b.updatedAt
  }

  /** The comparator chosen by `sortBy`; `date` and any unknown value sort by date. */
  function Order(sortBy: string): (Submission, Submission) -> bool
  {
    if sortBy == "name" then ByName() else if sortBy == "score" then ByScore() else ByDate()
  }

  lemma OrderIsPreorder(sortBy: string)
    ensures TotalPreorder(Order(sortBy))
  {
    if sortBy == "name" {
      forall a: Submission, b: Submission
        ensures ByName()(a, b) || ByName()(b, a)
      {
        LexLeTotal(NameOf(a), NameOf(b));
      }
      forall a: Submission, b: Submission, c: Submission | ByName()(a, b) && ByName()(b, c)
        ensures ByName()(a, c)
      {
        LexLeTransitive(NameOf(a), NameOf(b), NameOf(c));
      }
    }
  }

  /** `filteredAndSortedData`: exactly the copies that match the search and the status, each as
      often as in `data`, in the order `sortBy` asks for. */
  function FilteredAndSorted(data: seq<Submission>, term: string, status: string, sortBy: string): (r: seq<Submission>)
    ensures multiset(r) == multiset(Filter(data, Keeps(term, status)))
    ensures forall s :: s in r <==> s in data && MatchesName(s, term) && MatchesStatus(s, status)
    ensures |r| <= |data|
    ensures forall s :: s in r ==> s.studentName.Some?
    ensures sortBy == "name" ==> forall i, j :: 0 <= i < j < |r| ==> LexLe(r[i].studentName.value, r[j].studentName.value)
    ensures sortBy == "score" ==> forall i, j :: 0 <= i < j < |r| ==> r[i].score.GetOr(0) >= r[j].score.GetOr(0)
    ensures sortBy != "name" && sortBy != "score" ==> forall i, j :: 0 <= i < j < |r| ==> r[i].updatedAt >= r[j].updatedAt
  {
    var kept := Filter(data, Keeps(term, status));
    OrderIsPreorder(sortBy);
    var r := SortBy(kept, Order(sortBy));
    assert forall s :: s in r <==> s in kept by { SameMembers(r, kept); }
    assert SortedUnder(r, sortBy) by { SortedByOrder(r, sortBy); }
    r
  }

  /** Two lists with the same multiset hold the same elements. */
  lemma SameMembers(a: seq<Submission>, b: seq<Submission>)
    requires multiset(a) == multiset(b)
    ensures forall s :: s in a <==> s in b
  {
    assert forall s :: s in a <==> s in multiset(a);
    assert forall s :: s in b <==> s in multiset(b);
  }

  /** The order `sortBy` asks for, spelled out per key. */
  predicate SortedUnder(r: seq<Submission>, sortBy: string)
  {
    && (sortBy == "name" ==> forall i, j :: 0 <= i < j < |r| ==> LexLe(NameOf(r[i]), NameOf(r[j])))
    && (sortBy == "score" ==> forall i, j :: 0 <= i < j < |r| ==> r[i].score.GetOr(0) >= r[j].score.GetOr(0))
    && (sortBy != "name" && sortBy != "score" ==> forall i, j :: 0 <= i < j < |r| ==> r[i].updatedAt >= r[j].updatedAt)
  }

  lemma SortedByOrder(r: seq<Submission>, sortBy: string)
    requires SortedBy(r, Order(sortBy))
    ensures SortedUnder(r, sortBy)
  {
  }

  /** The `Pending` and `Graded` filters split what the search keeps. */
  lemma PendingGradedPartition(data: seq<Submission>, term: string, sortBy: string)
    ensures |FilteredAndSorted(data, term, "Pending", sortBy)| + |FilteredAndSorted(data, term, "Graded", sortBy)|
      == |FilteredAndSorted(data, term, "All", sortBy)|
  {
    var named := (s: Submission) => MatchesName(s, term);
    var found := Filter(data, named);
    var pending := (s: Submission) => s.grade == NotGraded;
    var graded := (s: Submission) => s.grade != NotGraded;
    FilterFilter(data, named, pending, Keeps(term, "Pending"));
    FilterFilter(data, named, graded, Keeps(term, "Graded"));
    FilterFilter(data, named, (s: Submission) => true, Keeps(term, "All"));
    FilterKeepsAll(found, (s: Submission) => true);
    FilterPartition(found, pending, graded);
    assert |FilteredAndSorted(data, term, "Pending", sortBy)| == |multiset(Filter(data, Keeps(term, "Pending")))|;
    assert |FilteredAndSorted(data, term, "Graded", sortBy)| == |multiset(Filter(data, Keeps(term, "Graded")))|;
    assert |FilteredAndSorted(data, term, "All", sortBy)| == |multiset(Filter(data, Keeps(term, "All")))|;
  }

  // ---------------------------------------------------------------- summary cards

  datatype Counts = Counts(total: nat, pending: nat, passed: nat, failed: nat)

  function HasBadge(b: Badge): Submission -> bool
  {
    (s: Submission) => StatusBadge(s) == b
  }

  /** The four cards: all copies, ungraded ones, those with `isPassed`, and graded failures. */
  function CountsOf(data: seq<Submission>): (c: Counts)
  {
    Counts(|data|,
      |Filter(data, (s: Submission) => s.grade == NotGraded)|,
      |Filter(data, (s: Submission) => s.isPassed)|,
      |Filter(data, (s: Submission) => s.grade != NotGraded && !s.isPassed)|)
  }

  /** The pending and failed cards count the copies with those badges; the passed card counts at
      least the copies with a `Passed` badge (more when an ungraded copy has `isPassed`), and the
      three badges cover every copy. */
  lemma CountsMatchBadges(data: seq<Submission>)
    ensures CountsOf(data).pending == |Filter(data, HasBadge(PendingBadge))|
    ensures CountsOf(data).failed == |Filter(data, HasBadge(FailedBadge))|
    ensures CountsOf(data).passed >= |Filter(data, HasBadge(PassedBadge))|
    ensures CountsOf(data).pending + CountsOf(data).failed + |Filter(data, HasBadge(PassedBadge))| == CountsOf(data).total
  {
    var pending := (s: Submission) => s.grade == NotGraded;
    var failed := (s: Submission) => s.grade != NotGraded && !s.isPassed;
    FilterSame(data, pending, HasBadge(PendingBadge));
    FilterSame(data, failed, HasBadge(FailedBadge));
    FilterMonotone(data, HasBadge(PassedBadge), (s: Submission) => s.isPassed);
    var notPending := (s: Submission) => StatusBadge(s) != PendingBadge;
    FilterPartition(data, HasBadge(PendingBadge), notPending);
    var graded := Filter(data, notPending);
    FilterFilter(data, notPending, HasBadge(FailedBadge), HasBadge(FailedBadge));
    var notFailed := (s: Submission) => StatusBadge(s) != FailedBadge;
    FilterFilter(data, notPending, notFailed, HasBadge(PassedBadge));
    FilterPartition(graded, HasBadge(FailedBadge), notFailed);
  }
}
