/** The student's test catalogue of `TestBrowse.js`: a test's difficulty (the most common
    question level), its popularity, whether the user has taken it, and the filter and sort of
    `filterAndSortTests`. */
module TestBrowse {
  import opened Common
  import opened Lists
  import opened Text
  import opened Tally

  datatype Kind = Mcq | Physical

  /** A test as listed: MCQ tests come with their questions' `difficultyLevel` (possibly absent)
      and their results' student ids; an absent array is an empty one. Dates are timestamps. */
  datatype BrowseTest = BrowseTest(
    name: string, kind: Kind, createdAt: int, levels: seq<Option<string>>,
    results: seq<string>, subject: Option<string>)

  datatype Subject = Subject(id: string, name: Option<string>)

  function KindName(k: Kind): string
  {
    match k
    case Mcq => "mcq"
    case Physical => "physical"
  }

  /** `hasUserTakenTest`: only an MCQ test with a result by the user counts as taken. */
  predicate Taken(t: BrowseTest, user: string)
  {
    t.kind == Mcq && exists i :: 0 <= i < |t.results| && t.results[i] == user
  }

  /** `getTestPopularity`: an MCQ test's result count; 0 for a physical test. */
  function Popularity(t: BrowseTest): (n: nat)
    ensures t.kind == Physical ==> n == 0
    ensures forall u :: Taken(t, u) ==> n >= 1
  {
    if t.kind == Mcq then |t.results| else 0
  }

  // ---------------------------------------------------------------- difficulty

  /** `q.difficultyLevel || 'Medium'`: an absent or empty level counts as `Medium`. */
  function LevelOf(o: Option<string>): string
  {
    if o.None? || o.value == "" then "Medium" else o.value
  }

  function LevelItems(levels: seq<Option<string>>): (items: seq<(string, bool)>)
    ensures |items| == |levels|
    ensures forall i :: 0 <= i < |levels| ==> items[i].0 == LevelOf(levels[i])
  {
    seq(|levels|, i requires 0 <= i < |levels| => (LevelOf(levels[i]), false))
  }

  /** `Object.keys(counts).reduce((a, b) => counts[a] > counts[b] ? a : b)`: the entry with the
      largest count, the later one winning a tie. */
  function LastMaxIndex(acc: seq<Entry<string>>): (i: nat)
    requires |acc| > 0
    ensures i < |acc|
    ensures forall j :: 0 <= j < |acc| ==> acc[j].total <= acc[i].total
    ensures forall j :: i < j < |acc| ==> acc[j].total < acc[i].total
  {
    if |acc| == 1 then 0
    else
      var m := |acc| - 1;
      var a := LastMaxIndex(acc[..m]);
      if acc[a].total > acc[m].total then a else m
  }

  /** `getTestDifficulty`: `Medium` for a physical test and for an MCQ test without questions;
      otherwise the level most questions have. */
  function Difficulty(t: BrowseTest): (d: string)
    ensures t.kind == Physical || t.levels == [] ==> d == "Medium"
  {
    if t.kind == Physical || t.levels == [] then "Medium"
    else
      var items := LevelItems(t.levels);
      TallyByCounts(items);
      var acc := TallyBy(items);
      acc[LastMaxIndex(acc)].key
  }

  /** The key of the last entry with the largest count is a most frequent key, and any key as
      frequent first occurs no later. */
  lemma LastMaxIsMode(items: seq<(string, bool)>, i: nat)
    requires i < |TallyBy(items)|
    requires forall j :: 0 <= j < |TallyBy(items)| ==> TallyBy(items)[j].total <= TallyBy(items)[i].total
    requires forall j :: i < j < |TallyBy(items)| ==> TallyBy(items)[j].total < TallyBy(items)[i].total
    ensures var d := TallyBy(items)[i].key;
      && ItemsWith(items, d) > 0
      && (forall k :: ItemsWith(items, k) <= ItemsWith(items, d))
      && (forall k :: ItemsWith(items, k) == ItemsWith(items, d) ==> FirstSeen(items, k) <= FirstSeen(items, d))
  {
    var acc := TallyBy(items);
    var d := acc[i].key;
    TallyByCounts(items);
    TallyInFirstSeenOrder(items);
    KeyPresent(acc, i);
    EntryCarriesCounts(acc, i);
    forall k | ItemsWith(items, k) > 0
      ensures ItemsWith(items, k) <= ItemsWith(items, d)
      ensures ItemsWith(items, k) == ItemsWith(items, d) ==> FirstSeen(items, k) <= FirstSeen(items, d)
    {
      var j := KeyHasEntry(acc, k);
      EntryCarriesCounts(acc, j);
    }
  }

  /** An MCQ test's difficulty is a level its questions have, no level is more frequent, and a
      level as frequent as it first appears no later. */
  lemma DifficultyIsMostCommon(t: BrowseTest)
    requires t.kind == Mcq && t.levels != []
    ensures var items := LevelItems(t.levels);
      && ItemsWith(items, Difficulty(t)) > 0
      && (forall k :: ItemsWith(items, k) <= ItemsWith(items, Difficulty(t)))
      && (forall k :: ItemsWith(items, k) == ItemsWith(items, Difficulty(t)) ==>
            FirstSeen(items, k) <= FirstSeen(items, Difficulty(t)))
  {
    var items := LevelItems(t.levels);
    TallyByCounts(items);
    LastMaxIsMode(items, LastMaxIndex(TallyBy(items)));
  }

  /** `diffOrder`: the rank of a known level. */
  function Rank(d: string): Option<nat>
  {
    if d == "Easy" then Some(1) else if d == "Medium" then Some(2) else if d == "Hard" then Some(3) else None
  }

  predicate KnownDifficulty(t: BrowseTest)
  {
    Rank(Difficulty(t)).Some?
  }

  // ---------------------------------------------------------------- filter and sort

  /** `subjects.find(s => s._id === selectedSubject)?.name`. */
  function SubjectName(subjects: seq<Subject>, id: string): (r: Option<string>)
    ensures r.Some? ==> exists i :: 0 <= i < |subjects| && subjects[i].id == id && subjects[i].name == r
    ensures (forall i :: 0 <= i < |subjects| ==> subjects[i].id != id) ==> r == None
  {
    if subjects == [] then None
    else if subjects[0].id == id then subjects[0].name
    else
      var r := SubjectName(subjects[1..], id);
      assert forall i :: 1 <= i < |subjects| ==> subjects[i] == subjects[1..][i - 1];
      r
  }

  /** The four tests of `filterAndSortTests`. A physical test passes the subject test when its
      subject equals the chosen subject's name, both possibly absent; an MCQ test always does. */
  predicate Shown(t: BrowseTest, term: string, testType: string, difficulty: string, selectedSubject: string, subjects: seq<Subject>)
  {
    && MatchesSearch(t.name, term)
    && (testType == "all" || KindName(t.kind) == testType)
    && (difficulty == "all" || Lower(Difficulty(t)) == difficulty)
    && (selectedSubject == "" || (if t.kind == Physical then t.subject == SubjectName(subjects, selectedSubject) else true))
  }

  function ShownFn(term: string, testType: string, difficulty: string, selectedSubject: string, subjects: seq<Subject>): BrowseTest -> bool
  {
    (t: BrowseTest) => Shown(t, term, testType, difficulty, selectedSubject, subjects)
  }

  function Oldest(): (BrowseTest, BrowseTest) -> bool
  {
    (a: BrowseTest, b: BrowseTest) => a.createdAt <= b.createdAt
  }

  function Newest(): (BrowseTest, BrowseTest) -> bool
  {
    (a: BrowseTest, b: BrowseTest) => a.createdAt >= b.createdAt
  }

  function MostPopular(): (BrowseTest, BrowseTest) -> bool
  {
    (a: BrowseTest, b: BrowseTest) => Popularity(a) >= Popularity(b)
  }

  /** `diffOrder[a] - diffOrder[b]`, where an unknown level makes the difference `NaN`, which the
      sort reads as "equal". */
  function Easiest(): (BrowseTest, BrowseTest) -> bool
  {
    (a: BrowseTest, b: BrowseTest) =>
      Rank(Difficulty(a)).None? || Rank(Difficulty(b)).None? || Rank(Difficulty(a)).value <= Rank(Difficulty(b)).value
  }

  function Order(sortBy: string): (BrowseTest, BrowseTest) -> bool
  {
    if sortBy == "oldest" then Oldest()
    else if sortBy == "popular" then MostPopular()
    else if sortBy == "difficulty" then Easiest()
    else Newest()
  }

  /** The `NaN` comparisons make the difficulty comparator inconsistent as soon as an unknown
      level sits between two known ones, so the sort is only determined on known levels. */
  predicate SortableBy(s: seq<BrowseTest>, sortBy: string)
  {
    sortBy == "difficulty" ==> forall t :: t in s ==> KnownDifficulty(t)
  }

  /** A numeric key whose order agrees with `Order(sortBy)` on the tests `SortableBy` admits. */
  function SortKey(sortBy: string): BrowseTest -> int
  {
    (t: BrowseTest) =>
      if sortBy == "oldest" then t.createdAt
      else if sortBy == "popular" then -(Popularity(t) as int)
      else if sortBy == "difficulty" then (if KnownDifficulty(t) then Rank(Difficulty(t)).value else 0)
      else -t.createdAt
  }

  function ByKey(sortBy: string): (BrowseTest, BrowseTest) -> bool
  {
    (a: BrowseTest, b: BrowseTest) => SortKey(sortBy)(a) <= SortKey(sortBy)(b)
  }

  lemma ByKeyIsPreorder(sortBy: string)
    ensures TotalPreorder(ByKey(sortBy))
  {
    var key := SortKey(sortBy);
    assert forall a, b :: ByKey(sortBy)(a, b) == (key(a) <= key(b));
  }

  lemma ByKeyAgrees(sortBy: string, a: BrowseTest, b: BrowseTest)
    requires sortBy == "difficulty" ==> KnownDifficulty(a) && KnownDifficulty(b)
    ensures ByKey(sortBy)(a, b) == Order(sortBy)(a, b)
  {
    if sortBy == "oldest" {
      assert Order(sortBy) == Oldest();
      assert SortKey(sortBy)(a) == a.createdAt;
      assert SortKey(sortBy)(b) == b.createdAt;
    } else if sortBy == "popular" {
      assert Order(sortBy) == MostPopular();
      assert SortKey(sortBy)(a) == -(Popularity(a) as int);
      assert SortKey(sortBy)(b) == -(Popularity(b) as int);
    } else if sortBy == "difficulty" {
      assert Order(sortBy) == Easiest();
      assert SortKey(sortBy)(a) == Rank(Difficulty(a)).value;
      assert SortKey(sortBy)(b) == Rank(Difficulty(b)).value;
    } else {
      assert Order(sortBy) == Newest();
      assert SortKey(sortBy)(a) == -a.createdAt;
      assert SortKey(sortBy)(b) == -b.createdAt;
    }
  }

  /** `filterAndSortTests`: exactly the tests passing the four tests, each as often as in `tests`,
      in the order `sortBy` asks for (oldest first, most popular first, easiest first, or newest
      first by default). */
  function FilterAndSort(tests: seq<BrowseTest>, term: string, testType: string, difficulty: string,
                         selectedSubject: string, subjects: seq<Subject>, sortBy: string): (r: seq<BrowseTest>)
    requires SortableBy(Filter(tests, ShownFn(term, testType, difficulty, selectedSubject, subjects)), sortBy)
    ensures multiset(r) == multiset(Filter(tests, ShownFn(term, testType, difficulty, selectedSubject, subjects)))
    ensures forall t :: t in r <==> t in tests && Shown(t, term, testType, difficulty, selectedSubject, subjects)
    ensures forall i, j :: 0 <= i < j < |r| ==> Order(sortBy)(r[i], r[j])
  {
    var kept := Filter(tests, ShownFn(term, testType, difficulty, selectedSubject, subjects));
    ByKeyIsPreorder(sortBy);
    forall a, b | a in kept && b in kept
      ensures ByKey(sortBy)(a, b) == Order(sortBy)(a, b)
    {
      ByKeyAgrees(sortBy, a, b);
    }
    SortByOrders(kept, ByKey(sortBy), Order(sortBy));
    SortBy(kept, ByKey(sortBy))
  }

  /** The subject filter never hides an MCQ test. */
  lemma SubjectFilterSparesMcq(t: BrowseTest, term: string, testType: string, difficulty: string, selectedSubject: string, subjects: seq<Subject>)
    requires t.kind == Mcq
    ensures Shown(t, term, testType, difficulty, selectedSubject, subjects) == Shown(t, term, testType, difficulty, "", subjects)
  {
  }
}
