/**
 * The parent dashboard's per-child learning summary: counts, time spent,
 * the rounded mean score, completions per category and the latest five
 * completions.
 */
module ProgressService {
  import opened Wrappers
  import opened Schema

  /** How many recent completions the summary lists. */
  const RECENT_LIMIT: nat := 5

  /** One progress row of a child, joined with its lesson's title and category name. */
  datatype ProgressRecord = ProgressRecord(progress: LessonProgress, lessonTitle: string, categoryName: string)

  /** A category with the number of its published lessons, as listed in sort order. */
  datatype CategoryRow = CategoryRow(name: string, color: Option<string>, publishedLessons: nat)

  datatype CategoryStat = CategoryStat(categoryName: string, categoryColor: Option<string>, completed: nat, total: nat)

  datatype RecentLesson = RecentLesson(lessonTitle: string, categoryName: string, score: Option<int>, completedAt: Option<Time>)

  /** A child with its own progress rows. */
  datatype ChildRows = ChildRows(id: ChildId, child: Child, records: seq<ProgressRecord>)

  datatype ChildProgress = ChildProgress(
    id: ChildId,
    displayName: string,
    tokenBalance: int,
    lessonsCompleted: nat,
    lessonsStarted: nat,
    totalTimeSpent: int,
    averageScore: Option<int>,
    categoryBreakdown: seq<CategoryStat>,
    recentLessons: seq<RecentLesson>)

  /** The completed rows, in their order. */
  function Completed(rs: seq<ProgressRecord>): (r: seq<ProgressRecord>)
    ensures |r| <= |rs|
    ensures forall k :: 0 <= k < |r| ==> r[k].progress.completed
    ensures forall x :: x in rs && x.progress.completed ==> x in r
    ensures forall x :: x in r ==> x in rs
  {
    if |rs| == 0 then []
    else
      var init := Completed(rs[..|rs| - 1]);
      if rs[|rs| - 1].progress.completed then init + [rs[|rs| - 1]] else init
  }

  /** The rows started but not completed, in their order. */
  function InProgress(rs: seq<ProgressRecord>): (r: seq<ProgressRecord>)
    ensures |r| <= |rs|
    ensures forall k :: 0 <= k < |r| ==> r[k].progress.started && !r[k].progress.completed
    ensures forall x :: x in rs && x.progress.started && !x.progress.completed ==> x in r
    ensures forall x :: x in r ==> x in rs
  {
    if |rs| == 0 then []
    else
      var init := InProgress(rs[..|rs| - 1]);
      if rs[|rs| - 1].progress.started && !rs[|rs| - 1].progress.completed then init + [rs[|rs| - 1]] else init
  }

  /** No row is both completed and merely started, so the two counts never exceed the rows. */
  lemma {:induction false} CompletedAndStartedDisjoint(rs: seq<ProgressRecord>)
    ensures |Completed(rs)| + |InProgress(rs)| <= |rs|
  {
    if |rs| > 0 {
      CompletedAndStartedDisjoint(rs[..|rs| - 1]);
    }
  }

  /** Time spent over all rows, completed or not. */
  function TotalTime(rs: seq<ProgressRecord>): (r: int)
    ensures |rs| == 0 ==> r == 0
    ensures (forall k :: 0 <= k < |rs| ==> rs[k].progress.timeSpentSeconds >= 0) ==>
              forall k :: 0 <= k < |rs| ==> 0 <= rs[k].progress.timeSpentSeconds <= r
  {
    if |rs| == 0 then 0 else TotalTime(rs[..|rs| - 1]) + rs[|rs| - 1].progress.timeSpentSeconds
  }

  /** Time spent is additive over a split of the rows. */
  lemma {:induction false} TotalTimeAppend(a: seq<ProgressRecord>, b: seq<ProgressRecord>)
    ensures TotalTime(a + b) == TotalTime(a) + TotalTime(b)
  {
    if |b| == 0 {
      assert a + b == a;
    } else {
      assert (a + b)[..|a + b| - 1] == a + b[..|b| - 1];
      assert (a + b)[|a + b| - 1] == b[|b| - 1];
      TotalTimeAppend(a, b[..|b| - 1]);
    }
  }

  /** With no negative time on any row, the total is at least each row's time. */
  lemma {:induction false} TotalTimeBounds(rs: seq<ProgressRecord>, k: nat)
    requires forall i :: 0 <= i < |rs| ==> rs[i].progress.timeSpentSeconds >= 0
    requires k < |rs|
    ensures TotalTime(rs) >= rs[k].progress.timeSpentSeconds >= 0
  {
    var init := rs[..|rs| - 1];
    if k < |rs| - 1 {
      TotalTimeBounds(init, k);
    } else if |init| > 0 {
      TotalTimeBounds(init, 0);
    }
  }

  /** The present scores of the given rows, in their order. */
  function Scores(rs: seq<ProgressRecord>): (r: seq<int>)
    ensures |r| <= |rs|
    ensures |r| == 0 <==> forall k :: 0 <= k < |rs| ==> rs[k].progress.score.None?
  {
    if |rs| == 0 then []
    else
      var init := Scores(rs[..|rs| - 1]);
      assert forall k :: 0 <= k < |rs| - 1 ==> rs[..|rs| - 1][k] == rs[k];
      match rs[|rs| - 1].progress.score
      case Some(s) => init + [s]
      case None => init
  }

  /** The positions of the rows that carry a score, in increasing order. */
  function ScoredPositions(rs: seq<ProgressRecord>): (r: seq<nat>)
    ensures forall k :: 0 <= k < |r| ==> r[k] < |rs| && rs[r[k]].progress.score.Some?
    ensures forall k, l :: 0 <= k < l < |r| ==> r[k] < r[l]
    ensures forall i :: 0 <= i < |rs| && rs[i].progress.score.Some? ==> i in r
  {
    if |rs| == 0 then []
    else
      var prefix := ScoredPositions(rs[..|rs| - 1]);
      if rs[|rs| - 1].progress.score.Some? then prefix + [|rs| - 1] else prefix
  }

  /**
   * The scores are exactly the rows' present scores in row order: the k-th
   * is the score of the k-th scored row.
   */
  lemma {:induction false} ScoresInOrder(rs: seq<ProgressRecord>)
    ensures |Scores(rs)| == |ScoredPositions(rs)|
    ensures forall k {:trigger Scores(rs)[k]} :: 0 <= k < |Scores(rs)| ==>
              Some(Scores(rs)[k]) == rs[ScoredPositions(rs)[k]].progress.score
  {
    if |rs| > 0 {
      var init := rs[..|rs| - 1];
      ScoresInOrder(init);
      var s0, p0 := Scores(init), ScoredPositions(init);
      var s, p := Scores(rs), ScoredPositions(rs);
      if rs[|rs| - 1].progress.score.Some? {
        assert s == s0 + [rs[|rs| - 1].progress.score.value] && p == p0 + [|rs| - 1];
      } else {
        assert s == s0 && p == p0;
      }
      forall k | 0 <= k < |s0|
        ensures Some(s[k]) == rs[p[k]].progress.score
      {
        assert s[k] == s0[k] && p[k] == p0[k] && Some(s0[k]) == init[p0[k]].progress.score;
      }
    }
  }

  function Sum(xs: seq<int>): int
  {
    if |xs| == 0 then 0 else Sum(xs[..|xs| - 1]) + xs[|xs| - 1]
  }

  lemma {:induction false} SumBounds(xs: seq<int>, lo: int, hi: int)
    requires forall k :: 0 <= k < |xs| ==> lo <= xs[k] <= hi
    ensures |xs| * lo <= Sum(xs) <= |xs| * hi
  {
    if |xs| > 0 {
      var init := xs[..|xs| - 1];
      SumBounds(init, lo, hi);
      assert Sum(xs) == Sum(init) + xs[|xs| - 1];
      assert |xs| * lo == |init| * lo + lo && |xs| * hi == |init| * hi + hi;
    }
  }

  /**
   * Rounding to the nearest integer with halves going up, of `sum / n`, in
   * integers: floor((2 sum + n) / 2n).
   */
  function RoundedMean(sum: int, n: nat): (r: int)
    requires n > 0
    ensures 2 * n * r - n <= 2 * sum < 2 * n * r + n
  {
    (2 * sum + n) / (2 * n)
  }

  /** A product of two positive integers is positive. */
  lemma ProductPositive(n: int, k: int)
    requires n > 0 && k > 0
    ensures n * k > 0
  {
  }

  /** Dividing back a doubled product: 2 n d <= n with n > 0 leaves d <= 0. */
  lemma HalfScale(n: int, d: int)
    requires n > 0 && 2 * n * d <= n
    ensures d <= 0
  {
    if d > 0 {
      ProductPositive(n, 2 * d - 1);
      assert false;
    }
  }

  /** The rounded mean is the only integer within half of the mean, halves going up. */
  lemma RoundedMeanUnique(sum: int, n: nat, r: int)
    requires n > 0
    requires 2 * n * r - n <= 2 * sum < 2 * n * r + n
    ensures r == RoundedMean(sum, n)
  {
    var m := RoundedMean(sum, n);
    assert 2 * n * (r - m - 1) <= n by {
      assert 2 * n * (r - m - 1) == 2 * n * r - 2 * n * m - 2 * n;
    }
    assert 2 * n * (m - r - 1) <= n by {
      assert 2 * n * (m - r - 1) == 2 * n * m - 2 * n * r - 2 * n;
    }
    HalfScale(n, r - m - 1);
    HalfScale(n, m - r - 1);
  }

  /** A total between n lo and n hi has a rounded mean between lo and hi. */
  lemma RoundedMeanBetween(sum: int, n: nat, lo: int, hi: int)
    requires n > 0
    requires n * lo <= sum <= n * hi
    ensures lo <= RoundedMean(sum, n) <= hi
  {
    var r := RoundedMean(sum, n);
    assert 2 * n * (r - hi) <= n by {
      assert 2 * n * (r - hi) == 2 * n * r - 2 * (n * hi);
    }
    assert 2 * n * (lo - r) <= n by {
      assert 2 * n * (lo - r) == 2 * (n * lo) - 2 * n * r;
    }
    HalfScale(n, r - hi);
    HalfScale(n, lo - r);
  }

  /** The mean of values in lo..hi, rounded, is in lo..hi. */
  lemma RoundedMeanWithin(xs: seq<int>, lo: int, hi: int)
    requires |xs| > 0
    requires forall k :: 0 <= k < |xs| ==> lo <= xs[k] <= hi
    ensures lo <= RoundedMean(Sum(xs), |xs|) <= hi
  {
    SumBounds(xs, lo, hi);
    RoundedMeanBetween(Sum(xs), |xs|, lo, hi);
  }

  /** The rounded mean of the present scores, or None when there is none. */
  function AverageScore(completed: seq<ProgressRecord>): (r: Option<int>)
    ensures r.None? <==> forall k :: 0 <= k < |completed| ==> completed[k].progress.score.None?
    ensures r.Some? ==> r.value == RoundedMean(Sum(Scores(completed)), |Scores(completed)|)
  {
    var scores := Scores(completed);
    if |scores| > 0 then Some(RoundedMean(Sum(scores), |scores|)) else None
  }

  /** Every score drawn from rows whose present scores lie in lo..hi lies in lo..hi. */
  lemma ScoresWithin(rs: seq<ProgressRecord>, lo: int, hi: int)
    requires forall k :: 0 <= k < |rs| && rs[k].progress.score.Some? ==> lo <= rs[k].progress.score.value <= hi
    ensures forall k :: 0 <= k < |Scores(rs)| ==> lo <= Scores(rs)[k] <= hi
  {
    ScoresInOrder(rs);
    forall k | 0 <= k < |Scores(rs)|
      ensures lo <= Scores(rs)[k] <= hi
    {
      assert Some(Scores(rs)[k]) == rs[ScoredPositions(rs)[k]].progress.score;
    }
  }

  /** With every present score in 0..100, as the completion request enforces, so is the average. */
  lemma AverageScoreWithin(completed: seq<ProgressRecord>)
    requires forall k :: 0 <= k < |completed| && completed[k].progress.score.Some? ==>
               0 <= completed[k].progress.score.value <= 100
    ensures AverageScore(completed).Some? ==> 0 <= AverageScore(completed).value <= 100
  {
    if |Scores(completed)| > 0 {
      ScoresWithin(completed, 0, 100);
      RoundedMeanWithin(Scores(completed), 0, 100);
    }
  }

  /** The number of rows in category `name`. */
  function CategoryCount(rs: seq<ProgressRecord>, name: string): (n: nat)
    ensures n <= |rs|
    ensures n > 0 <==> exists k :: 0 <= k < |rs| && rs[k].categoryName == name
  {
    if |rs| == 0 then 0
    else
      var init := rs[..|rs| - 1];
      var n := CategoryCount(init, name) + if rs[|rs| - 1].categoryName == name then 1 else 0;
      assert (exists k :: 0 <= k < |init| && init[k].categoryName == name) ==>
             (exists k :: 0 <= k < |rs| && rs[k].categoryName == name);
      n
  }

  /**
   * Counts the given rows per category name in a table that starts empty;
   * a name is in the table exactly when some row has it.
   */
  method CountByCategory(completed: seq<ProgressRecord>) returns (counts: map<string, nat>)
    ensures forall name :: name in counts <==> CategoryCount(completed, name) > 0
    ensures forall name :: name in counts ==> counts[name] == CategoryCount(completed, name)
  {
    counts := map[];
    for i := 0 to |completed|
      invariant forall name :: name in counts <==> CategoryCount(completed[..i], name) > 0
      invariant forall name :: name in counts ==> counts[name] == CategoryCount(completed[..i], name)
    {
      var catName := completed[i].categoryName;
      var current := if catName in counts then counts[catName] else 0;
      assert completed[..i + 1][..i] == completed[..i];
      counts := counts[catName := current + 1];
    }
    assert completed[..|completed|] == completed;
  }

  /** One row per category, in the given order, with the completions counted under its name. */
  function Breakdown(categories: seq<CategoryRow>, counts: map<string, nat>): (r: seq<CategoryStat>)
    ensures |r| == |categories|
    ensures forall k :: 0 <= k < |r| ==>
              && r[k].categoryName == categories[k].name
              && r[k].categoryColor == categories[k].color
              && r[k].completed == (if categories[k].name in counts then counts[categories[k].name] else 0)
              && r[k].total == categories[k].publishedLessons
  {
    if |categories| == 0 then []
    else
      var c := categories[|categories| - 1];
      Breakdown(categories[..|categories| - 1], counts)
      + [CategoryStat(c.name, c.color, if c.name in counts then counts[c.name] else 0, c.publishedLessons)]
  }

  /** The instant a row counts as completed at for ordering; none counts as 0. */
  function CompletedKey(r: ProgressRecord): Time
  {
    r.progress.completedAt.GetOr(0)
  }

  predicate NewestFirst(s: seq<ProgressRecord>)
  {
    forall p, q :: 0 <= p < q < |s| ==> CompletedKey(s[p]) >= CompletedKey(s[q])
  }

  /** Exchanges two rows. */
  method Swap(a: array<ProgressRecord>, i: nat, j: nat)
    requires i < a.Length && j < a.Length
    modifies a
    ensures a[..] == old(a[..])[i := old(a[j])][j := old(a[i])]
    ensures multiset(a[..]) == multiset(old(a[..]))
  {
    a[i], a[j] := a[j], a[i];
  }

  /** Moves row `i` down past every earlier row completed before it, keeping the first `i` rows in order. */
  method InsertNewest(a: array<ProgressRecord>, i: nat)
    requires i < a.Length
    requires NewestFirst(a[..i])
    modifies a
    ensures NewestFirst(a[..i + 1])
    ensures multiset(a[..]) == multiset(old(a[..]))
  {
    var j := i;
    while j > 0 && CompletedKey(a[j - 1]) < CompletedKey(a[j])
      invariant 0 <= j <= i
      invariant multiset(a[..]) == multiset(old(a[..]))
      invariant forall p, q :: 0 <= p < q <= i && q != j ==> CompletedKey(a[p]) >= CompletedKey(a[q])
      invariant forall q :: j < q <= i ==> CompletedKey(a[j]) >= CompletedKey(a[q])
    {
      Swap(a, j - 1, j);
      j := j - 1;
    }
  }

  /** Sorts the rows in place, latest completion first; rows with equal instants are never exchanged. */
  method SortNewestFirst(a: array<ProgressRecord>)
    modifies a
    ensures NewestFirst(a[..])
    ensures multiset(a[..]) == multiset(old(a[..]))
  {
    for i := 0 to a.Length
      invariant NewestFirst(a[..i])
      invariant multiset(a[..]) == multiset(old(a[..]))
    {
      InsertNewest(a, i);
    }
    assert a[..a.Length] == a[..];
  }

  function Recent(r: ProgressRecord): RecentLesson
  {
    RecentLesson(r.lessonTitle, r.categoryName, r.progress.score, r.progress.completedAt)
  }

  /** Each row as a recent lesson, in order. */
  function RecentOf(s: seq<ProgressRecord>): (r: seq<RecentLesson>)
    ensures |r| == |s|
    ensures forall k :: 0 <= k < |s| ==> r[k] == Recent(s[k])
  {
    if |s| == 0 then [] else RecentOf(s[..|s| - 1]) + [Recent(s[|s| - 1])]
  }

  /** What the latest completions must be: among the completed rows, newest first, nothing newer left out. */
  predicate IsLatest(top: seq<ProgressRecord>, completed: seq<ProgressRecord>)
  {
    && |top| == (if |completed| < RECENT_LIMIT then |completed| else RECENT_LIMIT)
    && NewestFirst(top)
    && multiset(top) <= multiset(completed)
    && forall x, y :: x in multiset(completed) - multiset(top) && y in top ==> CompletedKey(x) <= CompletedKey(y)
  }

  /** In a newest-first sequence, every row after position `n` is no newer than every row before it. */
  lemma SortedSplit(sorted: seq<ProgressRecord>, n: nat, x: ProgressRecord, y: ProgressRecord)
    requires NewestFirst(sorted) && n <= |sorted|
    requires x in multiset(sorted[n..]) && y in sorted[..n]
    ensures CompletedKey(x) <= CompletedKey(y)
  {
    var p :| 0 <= p < |sorted[n..]| && sorted[n..][p] == x;
    var q :| 0 <= q < n && sorted[..n][q] == y;
    assert sorted[n + p] == x && sorted[q] == y;
  }

  /** Splitting a sequence splits its multiset. */
  lemma SplitMultiset(sorted: seq<ProgressRecord>, n: nat)
    requires n <= |sorted|
    ensures multiset(sorted) == multiset(sorted[..n]) + multiset(sorted[n..])
  {
    assert sorted == sorted[..n] + sorted[n..];
  }

  /** Taking the first rows of a sorted permutation gives the latest ones. */
  lemma PrefixOfSortedIsLatest(sorted: seq<ProgressRecord>, completed: seq<ProgressRecord>)
    requires NewestFirst(sorted)
    requires multiset(sorted) == multiset(completed)
    ensures var n := if |sorted| < RECENT_LIMIT then |sorted| else RECENT_LIMIT;
            IsLatest(sorted[..n], completed)
  {
    var n := if |sorted| < RECENT_LIMIT then |sorted| else RECENT_LIMIT;
    var top := sorted[..n];
    SplitMultiset(sorted, n);
    assert |sorted| == |completed| by {
      assert |multiset(sorted)| == |multiset(completed)|;
    }
    assert NewestFirst(top) by {
      assert forall p :: 0 <= p < n ==> top[p] == sorted[p];
    }
    forall x, y | x in multiset(completed) - multiset(top) && y in top
      ensures CompletedKey(x) <= CompletedKey(y)
    {
      SortedSplit(sorted, n, x, y);
    }
  }

  /** What the summary of one child must report, from its rows and the category list. */
  ghost predicate Summarizes(s: ChildProgress, rows: ChildRows, categories: seq<CategoryRow>)
  {
    && s.id == rows.id && s.displayName == rows.child.displayName && s.tokenBalance == rows.child.tokenBalance
    && s.lessonsCompleted == |Completed(rows.records)|
    && s.lessonsStarted == |InProgress(rows.records)|
    && s.totalTimeSpent == TotalTime(rows.records)
    && s.averageScore == AverageScore(Completed(rows.records))
    && |s.categoryBreakdown| == |categories|
    && (forall k :: 0 <= k < |categories| ==>
          && s.categoryBreakdown[k].categoryName == categories[k].name
          && s.categoryBreakdown[k].categoryColor == categories[k].color
          && s.categoryBreakdown[k].completed == CategoryCount(Completed(rows.records), categories[k].name)
          && s.categoryBreakdown[k].total == categories[k].publishedLessons)
    && exists top :: IsLatest(top, Completed(rows.records)) && s.recentLessons == RecentOf(top)
  }

  /** The latest completions: the completed rows sorted newest first in an array, cut to RECENT_LIMIT. */
  method LatestCompleted(completed: seq<ProgressRecord>) returns (top: seq<ProgressRecord>)
    ensures IsLatest(top, completed)
  {
    var a := new ProgressRecord[|completed|](k requires 0 <= k < |completed| => completed[k]);
    assert a[..] == completed;
    SortNewestFirst(a);
    var n := if a.Length < RECENT_LIMIT then a.Length else RECENT_LIMIT;
    PrefixOfSortedIsLatest(a[..], completed);
    top := a[..n];
  }

  /** The summary of one child. */
  method SummarizeChild(rows: ChildRows, categories: seq<CategoryRow>) returns (s: ChildProgress)
    ensures Summarizes(s, rows, categories)
    ensures s.lessonsCompleted + s.lessonsStarted <= |rows.records|
    ensures |s.recentLessons| <= RECENT_LIMIT
  {
    var completed := Completed(rows.records);
    var started := InProgress(rows.records);
    CompletedAndStartedDisjoint(rows.records);
    var counts := CountByCategory(completed);
    var breakdown := Breakdown(categories, counts);
    var top := LatestCompleted(completed);
    s := ChildProgress(rows.id, rows.child.displayName, rows.child.tokenBalance, |completed|, |started|,
                       TotalTime(rows.records), AverageScore(completed), breakdown, RecentOf(top));
    assert IsLatest(top, completed) && s.recentLessons == RecentOf(top);
  }

  lemma SummariesExtend(prev: seq<ChildProgress>, s: ChildProgress, children: seq<ChildRows>, categories: seq<CategoryRow>, i: nat)
    requires i < |children| && |prev| == i
    requires forall k :: 0 <= k < i ==> Summarizes(prev[k], children[k], categories)
    requires Summarizes(s, children[i], categories)
    ensures forall k :: 0 <= k < i + 1 ==> Summarizes((prev + [s])[k], children[k], categories)
  {
    forall k | 0 <= k < i + 1
      ensures Summarizes((prev + [s])[k], children[k], categories)
    {
      if k < i {
        assert (prev + [s])[k] == prev[k];
      }
    }
  }

  /** The summaries of a family's children, in the order given (oldest profile first). */
  method GetFamilyProgress(children: seq<ChildRows>, categories: seq<CategoryRow>) returns (summaries: seq<ChildProgress>)
    ensures |summaries| == |children|
    ensures forall k :: 0 <= k < |children| ==> Summarizes(summaries[k], children[k], categories)
  {
    summaries := [];
    for i := 0 to |children|
      invariant |summaries| == i
      invariant forall k :: 0 <= k < i ==> Summarizes(summaries[k], children[k], categories)
    {
      var s := SummarizeChild(children[i], categories);
      SummariesExtend(summaries, s, children, categories, i);
      summaries := summaries + [s];
    }
  }
}
