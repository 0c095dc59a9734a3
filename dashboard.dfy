/** The dashboard (src/pages/Dashboard.tsx): statistics derived from the
    signed-in user's results, and the page's one piece of state, the loaded
    `results`. */
module Dashboard {
  import opened QuizTypes
  import opened Rounding
  import ScoreService

  /** Every result can be turned into a percentage. */
  predicate Scorable(results: seq<QuizResult>) {
    forall i :: 0 <= i < |results| ==> results[i].totalQuestions > 0
  }

  /** Every score lies between 0 and its number of questions. */
  predicate InRange(results: seq<QuizResult>) {
    forall i :: 0 <= i < |results| ==>
      0 <= results[i].score <= results[i].totalQuestions && results[i].totalQuestions > 0
  }

  /** `totalQuizzes`. */
  function TotalQuizzes(results: seq<QuizResult>): (n: nat)
    ensures n == 0 <==> results == []
  {
    |results|
  }

  /** The `reduce` of line 41: the exact percentages added from the first result to the last. */
  function SumPercent(results: seq<QuizResult>): (sum: real)
    requires Scorable(results)
    ensures InRange(results) ==> 0.0 <= sum <= 100.0 * |results| as real
  {
    if results == [] then 0.0
    else
      var init := results[..|results| - 1];
      var last := results[|results| - 1];
      assert Scorable(init) && (InRange(results) ==> InRange(init));
      SumPercent(init) + Percent(last.score, last.totalQuestions)
  }

  /** `averageScore`: 0 with no results, else the rounded mean percentage. */
  function AverageScore(results: seq<QuizResult>): (a: int)
    requires Scorable(results)
    ensures results == [] ==> a == 0
    ensures InRange(results) ==> 0 <= a <= 100
  {
    if TotalQuizzes(results) > 0 then
      var mean := SumPercent(results) / TotalQuizzes(results) as real;
      assert InRange(results) ==> 0.0 <= mean <= 100.0;
      Round(mean)
    else 0
  }

  /** The sum over a concatenation is the sum of the sums: the order in
      which the results were added does not matter for the total. */
  lemma {:induction false} SumPercentAppend(a: seq<QuizResult>, b: seq<QuizResult>)
    requires Scorable(a) && Scorable(b)
    ensures Scorable(a + b)
    ensures SumPercent(a + b) == SumPercent(a) + SumPercent(b)
  {
    ScorableAppend(a, b);
    if b == [] {
      assert a + b == a;
    } else {
      var init := b[..|b| - 1];
      assert (a + b)[..|a + b| - 1] == a + init;
      assert Scorable(init);
      SumPercentAppend(a, init);
    }
  }

  /** With a single result the average is that result's rounded percentage. */
  lemma AverageOfOne(r: QuizResult)
    requires r.totalQuestions > 0
    ensures AverageScore([r]) == RoundedPercent(r.score, r.totalQuestions)
  {
    assert [r][..0] == [];
  }

  /** Two results of 3/5 and 4/5 average to 70%. */
  lemma AverageExample(a: QuizResult, b: QuizResult)
    requires a.score == 3 && a.totalQuestions == 5 && b.score == 4 && b.totalQuestions == 5
    ensures AverageScore([a, b]) == 70
  {
    assert [a, b][..1] == [a];
    assert [a][..0] == [];
    assert SumPercent([a, b]) == 140.0;
  }

  /** A result saved with one point more than its questions, as the quiz page
      saves after a perfect run of five, shows 120% and lifts the average above 100. */
  lemma OvercountedResultShows120(r: QuizResult)
    requires r.score == 6 && r.totalQuestions == 5
    ensures RoundedPercent(r.score, r.totalQuestions) == 120
    ensures AverageScore([r]) == 120
  {
    AverageOfOne(r);
  }

  /** One bar of the performance chart. */
  datatype ChartPoint = ChartPoint(name: string, score: int)

  /** The bar for one result: its title and its rounded percentage. */
  function Bar(r: QuizResult): ChartPoint
    requires r.totalQuestions > 0
  {
    ChartPoint(r.quizTitle, RoundedPercent(r.score, r.totalQuestions))
  }

  /** `chartData`: one bar per result, in the order of the results. */
  function ChartData(results: seq<QuizResult>): (c: seq<ChartPoint>)
    requires Scorable(results)
    ensures |c| == |results|
    ensures forall i :: 0 <= i < |c| ==>
      c[i] == Bar(results[i])
  {
    if results == [] then []
    else
      var init := results[..|results| - 1];
      var last := results[|results| - 1];
      assert Scorable(init);
      ChartData(init) + [Bar(last)]
  }

  /** Results added one after another can be turned into percentages together. */
  lemma ScorableAppend(a: seq<QuizResult>, b: seq<QuizResult>)
    requires Scorable(a) && Scorable(b)
    ensures Scorable(a + b)
  {
    forall i | 0 <= i < |a + b| ensures (a + b)[i].totalQuestions > 0 {
      if i >= |a| { assert (a + b)[i] == b[i - |a|]; }
    }
  }

  /** The chart of a concatenation is the concatenation of the charts. */
  lemma ChartDataAppend(a: seq<QuizResult>, b: seq<QuizResult>)
    requires Scorable(a) && Scorable(b)
    ensures Scorable(a + b) && ChartData(a + b) == ChartData(a) + ChartData(b)
  {
    ScorableAppend(a, b);
    var c, d := ChartData(a + b), ChartData(a) + ChartData(b);
    assert |c| == |d|;
    forall i | 0 <= i < |c| ensures c[i] == d[i] {
      if i < |a| {
        assert (a + b)[i] == a[i] && d[i] == ChartData(a)[i];
      } else {
        assert (a + b)[i] == b[i - |a|] && d[i] == ChartData(b)[i - |a|];
      }
    }
  }

  /** With in-range scores every bar lies between 0 and 100. */
  lemma ChartDataInRange(results: seq<QuizResult>)
    requires InRange(results)
    ensures forall i :: 0 <= i < |results| ==> 0 <= ChartData(results)[i].score <= 100
  {
    forall i | 0 <= i < |results| ensures 0 <= ChartData(results)[i].score <= 100 {
      assert ChartData(results)[i] == Bar(results[i]);
    }
  }

  /** The title on the "Latest Quiz" card. */
  function LatestQuizTitle(results: seq<QuizResult>): string
  {
    if |results| > 0 then results[|results| - 1].quizTitle else "No quizzes taken yet"
  }

  /** "Latest" is the result added last, and with none there is a placeholder. */
  lemma LatestIsLastAdded(results: seq<QuizResult>, r: QuizResult)
    ensures LatestQuizTitle([]) == "No quizzes taken yet"
    ensures LatestQuizTitle(results + [r]) == r.quizTitle
  {
  }

  /** After a result is saved, reloading the dashboard shows it as the latest quiz. */
  lemma LatestAfterSave(s: seq<UserScore>, userId: string, result: QuizResult)
    ensures LatestQuizTitle(ScoreService.ResultsOf(ScoreService.WithResult(s, userId, result), userId))
              == result.quizTitle
  {
    ScoreService.SaveAppendsResult(s, userId, result);
  }

  /** Newest first. */
  predicate SortedByDateDesc(rs: seq<QuizResult>) {
    forall i, j :: 0 <= i < j < |rs| ==> rs[i].date >= rs[j].date
  }

  /** The results of `rs` dated `d`, in their order in `rs`. */
  function DatedAt(rs: seq<QuizResult>, d: int): (t: seq<QuizResult>)
    ensures forall x :: x in t ==> x in rs && x.date == d
  {
    if rs == [] then []
    else (if rs[0].date == d then [rs[0]] else []) + DatedAt(rs[1..], d)
  }

  /** A result no older than the head of a newest-first list can head it. */
  lemma ConsSorted(h: QuizResult, rest: seq<QuizResult>)
    requires SortedByDateDesc(rest)
    requires rest != [] ==> rest[0].date <= h.date
    ensures SortedByDateDesc([h] + rest)
  {
    forall j | 0 < j < |[h] + rest| ensures h.date >= ([h] + rest)[j].date {
      assert ([h] + rest)[j] == rest[j - 1];
    }
  }

  /** Insert `x` into a newest-first list before every result not newer than it. */
  function InsertByDate(x: QuizResult, s: seq<QuizResult>): (t: seq<QuizResult>)
    requires SortedByDateDesc(s)
    ensures SortedByDateDesc(t)
    ensures multiset(t) == multiset(s) + multiset{x}
    ensures t != [] && (t[0] == x || (s != [] && t[0] == s[0]))
  {
    if s == [] || s[0].date <= x.date then
      ConsSorted(x, s);
      [x] + s
    else
      assert s == [s[0]] + s[1..];
      var rest := InsertByDate(x, s[1..]);
      ConsSorted(s[0], rest);
      [s[0]] + rest
  }

  /** The history table's order: a stable sort, newest first, of a copy of `results`. */
  function SortedHistory(results: seq<QuizResult>): (h: seq<QuizResult>)
    ensures SortedByDateDesc(h)
    ensures multiset(h) == multiset(results)
  {
    if results == [] then []
    else
      assert results == [results[0]] + results[1..];
      InsertByDate(results[0], SortedHistory(results[1..]))
  }

  /** Filtering a list with a known head. */
  lemma DatedAtCons(y: QuizResult, rest: seq<QuizResult>, d: int)
    ensures DatedAt([y] + rest, d) == (if y.date == d then [y] else []) + DatedAt(rest, d)
  {
    assert ([y] + rest)[1..] == rest;
  }

  /** Inserting `x` puts it ahead of the results with its date and leaves the others' order alone. */
  lemma {:induction false} InsertByDateStable(x: QuizResult, s: seq<QuizResult>, d: int)
    requires SortedByDateDesc(s)
    ensures DatedAt(InsertByDate(x, s), d) == DatedAt([x] + s, d)
  {
    if s != [] && s[0].date > x.date {
      var y, tail := s[0], s[1..];
      var rest := InsertByDate(x, tail);
      assert InsertByDate(x, s) == [y] + rest;
      assert s == [y] + tail;
      var hx := if x.date == d then [x] else [];
      var hy := if y.date == d then [y] else [];
      calc {
        DatedAt(InsertByDate(x, s), d);
      == { DatedAtCons(y, rest, d); }
        hy + DatedAt(rest, d);
      == { InsertByDateStable(x, tail, d); DatedAtCons(x, tail, d); }
        hy + (hx + DatedAt(tail, d));
      == { assert hx == [] || hy == []; }
        hx + (hy + DatedAt(tail, d));
      == { DatedAtCons(y, tail, d); }
        hx + DatedAt(s, d);
      == { DatedAtCons(x, s, d); }
        DatedAt([x] + s, d);
      }
    }
  }

  /** Stability: results with the same date keep their relative order. */
  lemma {:induction false} SortedHistoryStable(results: seq<QuizResult>, d: int)
    ensures DatedAt(SortedHistory(results), d) == DatedAt(results, d)
  {
    if results != [] {
      SortedHistoryStable(results[1..], d);
      InsertByDateStable(results[0], SortedHistory(results[1..]), d);
    }
  }

  /** The dashboard page's state. */
  class DashboardView {
    var results: seq<QuizResult>

    constructor ()
      ensures results == []
    {
      results := [];
    }

    /** The effect that loads the signed-in user's results. */
    method LoadScores(user: Option<string>, store: ScoreService.ScoreStore)
      modifies this
      ensures user.Some? ==> results == store.GetUserScores(user.value)
      ensures user.None? ==> results == old(results)
    {
      if user.Some? {
        results := store.GetUserScores(user.value);
      }
    }

    /** `handleClearScores`: with a user, delete the stored results and empty
        the page's list, so the count and the average drop to 0. */
    method ClearScores(user: Option<string>, store: ScoreService.ScoreStore)
      modifies this, store
      ensures user.Some? ==>
        && results == []
        && store.GetAllScores() == ScoreService.RemoveUser(old(store.GetAllScores()), user.value)
        && store.GetUserScores(user.value) == []
        && TotalQuizzes(results) == 0 && AverageScore(results) == 0
        && LatestQuizTitle(results) == "No quizzes taken yet"
      ensures user.None? ==> results == old(results) && store.stored == old(store.stored)
    {
      if user.Some? {
        store.ClearUserScores(user.value);
        results := [];
      }
    }
  }
}
