# Scorekeeper quest: the quiz bookkeeping in Dafny

This project models the client-side bookkeeping of a browser quiz
application. Users pick one of three fixed quizzes, answer its
multiple-choice questions one at a time, and review their past scores on a
dashboard. The scores are kept in the browser's local storage, one record per
user. Four pieces are modelled:

- **Quiz catalog** (`catalog.dfy`, module `Catalog`). The constant `Quizzes`
  holds the three quizzes with all their data. `GetQuizById` is the `find` by
  id. Lemmas about the data show that:
  - every correct answer is among its options;
  - no option is listed twice;
  - every quiz has five questions with distinct ids;
  - the quiz ids are distinct, so a lookup returns the quiz that carries the id.
- **Score store** (`score_service.dfy`, module `ScoreService`). The class
  `ScoreStore` holds the decoded value under the storage key, in place of the
  JSON text. `None` stands for an absent key or an empty string; both read as
  the empty table. `SaveQuizResult` and `ClearUserScores` rewrite that value.
  Pure functions on `seq<UserScore>` describe what each operation does to the
  table. Lemmas state the round trip (a saved result is appended to the
  user's results), that other users' results are untouched, that clearing is
  idempotent and keeps the other records in order, and that saving keeps at
  most one record per user.
- **Quiz session** (`quiz_session.dfy`, module `QuizSession`). The class
  `Session` has the page's state fields (`quiz`, `currentQuestionIndex`,
  `selectedAnswer`, `answers`, `isRevealed`, `isComplete`, `score`) and one
  method per event handler: select, reveal, next, retry. A handler in the page
  reads the state as it was when the handler was called, so each method
  captures the pre-call state before it assigns anything. The six mutable
  fields form a `State` value. The functions `AfterSelect`, `AfterReveal`
  and `AfterNext` give the state after each handler, and each method's
  postcondition says its new state is that function of its old one.
  `ConsistentState` holds in every state that the page's buttons can reach:
  - the index is in range;
  - the recorded answers are keyed by the ids of exactly the revealed questions;
  - while revealed, the selection is the answer recorded for the current question;
  - `0 <= score <=` the number of revealed questions;
  - when question ids are distinct, `score` is the number of correctly
    answered questions.
  A lemma per handler shows that it preserves `ConsistentState` when it is
  called the way the page renders it: "Check Answer" only while not
  revealed, "Next" only while revealed, "Try Again" only after completion.
- **Dashboard** (`dashboard.dfy`, module `Dashboard`). It computes the
  number of quizzes taken, the rounded average percentage, the chart series,
  the latest quiz title and the newest-first history as functions of the
  loaded results. The class `DashboardView` holds the loaded `results` and
  performs the load and the "clear history" action. The history is proved
  sorted, a permutation of the results and stable (results with the same
  date keep their order). Because it is a function of a value, the loaded
  results themselves are unchanged.

`quiz_types.dfy` holds the records (`QuizQuestion`, `Quiz`, `QuizResult`,
`UserScore`). `rounding.dfy` holds `Math.round` and the percentage
computation that both pages use.

**The saved score counts a correct last answer twice.** On the last question,
"Check Answer" already adds the correct answer to `score`. "Complete Quiz"
then saves `score` plus one more when the (pre-call) selection is correct.
The completion screen shows plain `score`, because the selection is already
cleared by then. `Session.NextQuestion` and `CompletionOvercounts` state
this exactly. `PerfectRun`
shows that a signed-in user who answers all five questions correctly sees
5/5 (100%) but has 6/5 saved. `Dashboard.OvercountedResultShows120` shows
that such a result appears as 120% in the chart and the average. The model
keeps this behaviour as the code has it.

Behaviour the model keeps as the code has it:
- A malformed stored value makes `JSON.parse` throw. It is not read as an
  empty table, so that path is not modelled.
- The reveal handler does not check `isRevealed`. Only the rendering of the
  button keeps a second reveal from happening, so that condition is a premise
  of the invariant, not a guard in `RevealAnswer`.
- The select handler ignores a selection only while revealed.
- An empty-string selection counts as no selection, as JavaScript
  truthiness has it (`Truthy`).
- A saved result can have `score = totalQuestions + 1`, as described above.

## Model

| member | source | states |
|---|---|---|
| `Rounding.Round` | src/pages/Quiz.tsx:111 | `Math.round` gives the integer within one half: `x - 1/2 < r <= x + 1/2`, so halves round up |
| `Rounding.Percent` | src/pages/Dashboard.tsx:47 | the exact percentage `p` satisfies `p * total == 100 * score`, and lies in [0, 100] for an in-range score |
| `Rounding.RoundedPercent` | src/pages/Dashboard.tsx:47 | the rounded percentage lies in [0, 100] for `0 <= score <= total`; it is 100 for a full score and 0 for none |
| `Rounding.RoundedPercentAtLeast` | src/pages/Quiz.tsx:111 | the rounded percentage reaches `bound` iff `200 * score >= (2 * bound - 1) * total` |
| `Catalog.FindQuiz` | src/data/quizzes.ts:124-126 | `find` gives None iff no quiz has the id; otherwise the first quiz with that id |
| `Catalog.GetQuizById` | src/data/quizzes.ts:124-126 | a found quiz is in the catalog and carries the id; None iff no catalog quiz carries it |
| `Catalog.GeographyWellFormed` | src/data/quizzes.ts:11-42 | the questions of "Basic Geography" (the constant `GeographyQuestions`, part of `Geography` in `Quizzes`): five of them with distinct ids; each correct answer is an option and the options are distinct |
| `Catalog.ScienceWellFormed` | src/data/quizzes.ts:50-81 | the same for "Science Trivia" (`ScienceQuestions`, part of `Science`) |
| `Catalog.HistoryWellFormed` | src/data/quizzes.ts:89-120 | the same for "History Knowledge" (`HistoryQuestions`, part of `History`) |
| `Catalog.CatalogWellFormed` | src/data/quizzes.ts:4-122 | every quiz of the constant `Quizzes` = [`Geography`, `Science`, `History`] is well formed |
| `Catalog.QuizIdsDistinct` | src/data/quizzes.ts:6-84 | the quiz ids "1", "2", "3" are pairwise distinct |
| `Catalog.GetQuizByIdFindsCarrier` | src/data/quizzes.ts:124-126 | looking up the id of any catalog quiz returns that very quiz |
| `Catalog.GetQuizByIdDomain` | src/data/quizzes.ts:124-126 | a lookup succeeds iff the id is "1", "2" or "3" |
| `Catalog.GetQuizByIdSessionReady` | src/data/quizzes.ts:4-126 | a found quiz has 5 questions with distinct ids, each with its correct answer among its options, as the session needs |
| `ScoreService.FindIndex` | src/services/scoreService.ts:8 | `findIndex` gives -1 iff no record has the user; otherwise the first record of the user |
| `ScoreService.ResultsOf` | src/services/scoreService.ts:24-28 | no record of the user gives []; otherwise the results of the user's first record |
| `ScoreService.WithResult` | src/services/scoreService.ts:8-19 | with no record of the user, one record `{userId, [result]}` is appended; otherwise `result` is appended to the first record's results and nothing else changes |
| `ScoreService.RemoveUser` | src/services/scoreService.ts:37 | the `filter` keeps exactly the records of other users and never grows the table |
| `ScoreService.SaveAppendsResult` | src/services/scoreService.ts:6-28 | round trip: after a save, the user's results are the previous results followed by `result` |
| `ScoreService.SaveKeepsOthers` | src/services/scoreService.ts:8-19 | a save leaves every other user's results unchanged |
| `ScoreService.SaveKeepsUnique` | src/services/scoreService.ts:8-19 | a save keeps "at most one record per user" and adds a record iff the user had none |
| `ScoreService.RemoveUserAppend` | src/services/scoreService.ts:37 | the filter commutes with concatenation, so the kept records stay in their original order |
| `ScoreService.RemoveUserSingle` | src/services/scoreService.ts:37 | on one record the filter keeps it iff it belongs to another user |
| `ScoreService.RemoveUserIdempotent` | src/services/scoreService.ts:35-38 | clearing twice equals clearing once |
| `ScoreService.RemoveUserClears` | src/services/scoreService.ts:35-38 | after a clear the user's results are empty |
| `ScoreService.RemoveUserKeepsOthers` | src/services/scoreService.ts:35-38 | a clear leaves every other user's results unchanged |
| `ScoreService.ResultsOfTail` | src/services/scoreService.ts:26 | `find` on a non-empty table: the head record if it matches, else the lookup in the tail |
| `ScoreService.ScoreStore.constructor` | src/services/scoreService.ts:30-33 | with no storage entry, `GetAllScores()` is the empty table |
| `ScoreService.ScoreStore.GetAllScores` | src/services/scoreService.ts:30-33 | defines `getAllScores`: the stored table, or the empty table when nothing is stored; what callers rely on is stated by the constructor (a fresh store reads as empty) and by the save and clear postconditions (the new table in terms of the old) |
| `ScoreService.ScoreStore.GetUserScores` | src/services/scoreService.ts:24-28 | [] when nothing is stored or the user has no record; otherwise the first record's results |
| `ScoreService.ScoreStore.SaveQuizResult` | src/services/scoreService.ts:6-22 | the new table is the save of the old; the user's results gain `result` at the end; others' are unchanged; uniqueness of users is kept |
| `ScoreService.ScoreStore.ClearUserScores` | src/services/scoreService.ts:35-39 | the new table is the old one without the user's records; the user's results are empty; others' are unchanged |
| `QuizSession.CorrectCount` | src/pages/Quiz.tsx:62-73 | the number of correctly answered questions among the first `n` is at most `n` |
| `QuizSession.CorrectCountFrame` | src/pages/Quiz.tsx:65-68 | recording an answer under a question id leaves the count over questions with other ids unchanged |
| `QuizSession.Truthy` | src/pages/Quiz.tsx:59 | defines the guard `!selectedAnswer`: a selection counts only when present and not the empty string |
| `QuizSession.AfterSelect` | src/pages/Quiz.tsx:53-56 | defines the state after `handleSelectAnswer`: unchanged while revealed, otherwise only the selection is set |
| `QuizSession.AfterReveal` | src/pages/Quiz.tsx:58-74 | defines the state after `handleRevealAnswer`: unchanged without a truthy selection, otherwise revealed, the answer recorded under the current question's id, the score raised by 1 iff the selection is the correct answer |
| `QuizSession.AfterNext` | src/pages/Quiz.tsx:76-98 | defines the state after `handleNextQuestion`: selection and reveal cleared, then completed on the last question or the index advanced otherwise; answers and score untouched |
| `QuizSession.PendingScore` | src/pages/Quiz.tsx:88 | the formula shared by the saved score (line 88) and the completion screen (line 110): between `score` and `score + 1`, and exactly `score` with no pending selection |
| `QuizSession.InitialConsistent` | src/pages/Quiz.tsx:21-27 | the state of the first render (and of "Try Again") is consistent |
| `QuizSession.SelectKeepsConsistent` | src/pages/Quiz.tsx:53-56 | picking an option before completion keeps the state consistent |
| `QuizSession.RevealKeepsConsistent` | src/pages/Quiz.tsx:58-74 | "Check Answer" while hidden keeps the state consistent: the question id joins the recorded answers and the score counts the new answer iff it is correct |
| `QuizSession.NextKeepsConsistent` | src/pages/Quiz.tsx:76-98 | "Next"/"Complete" while revealed keeps the state consistent |
| `QuizSession.CompletionOvercounts` | src/pages/Quiz.tsx:76-111 | completing from a consistent state with distinct ids: the screen shows the number of correct answers, and the saved score is that plus 1 iff the last answer was correct |
| `QuizSession.Session.CurrentQuestion` | src/pages/Quiz.tsx:48 | the current question is one of the quiz's questions |
| `QuizSession.Session.IsLastQuestion` | src/pages/Quiz.tsx:51 | defines `isLastQuestion`: the index is that of the final question |
| `QuizSession.Session.constructor` | src/pages/Quiz.tsx:21-27 | initial state: index 0, no selection, no answers, not revealed, not complete, score 0; consistent |
| `QuizSession.Session.SelectAnswer` | src/pages/Quiz.tsx:53-56 | the new state is `AfterSelect`: a no-op while revealed, otherwise only the selection changes; consistency is kept before completion |
| `QuizSession.Session.RevealAnswer` | src/pages/Quiz.tsx:58-74 | the new state is `AfterReveal`: a no-op without a (non-empty) selection, otherwise revealed, the answer recorded under the question id, and 1 added to the score iff the selection is correct; consistency is kept when called while not revealed |
| `QuizSession.Session.NextQuestion` | src/pages/Quiz.tsx:76-98 | the new state is `AfterNext`: selection and reveal cleared, the index advanced, or on the last question completed with the index unchanged; exactly one result is saved iff last and signed in, with `totalQuestions` = question count and score = pre-call score + 1 if the pre-call selection is correct; the store changes only by that save |
| `QuizSession.Session.Retry` | src/pages/Quiz.tsx:100-107 | back to the initial state, which is consistent |
| `QuizSession.Session.FinalScore` | src/pages/Quiz.tsx:109-110 | on the completion screen the displayed score is `score`, between 0 and the question count |
| `QuizSession.Session.Percentage` | src/pages/Quiz.tsx:111 | on the completion screen the percentage lies in [0, 100] |
| `QuizSession.Session.Passed` | src/pages/Quiz.tsx:140 | "passed" holds iff `200 * finalScore >= 139 * questions`, i.e. the rounded percentage is at least 70 |
| `QuizSession.FiveQuestionPassMark` | src/pages/Quiz.tsx:111 | 4 of 5 gives 80% and passes; 3 of 5 gives 60% and does not |
| `QuizSession.CheckCorrectAnswer` | src/pages/Quiz.tsx:200-250 | picking the correct option and clicking "Check Answer" reveals, adds exactly 1, and keeps the selection and index |
| `QuizSession.CorrectAndContinue` | src/pages/Quiz.tsx:58-98 | answering a question before the last correctly and clicking "Next Question" moves to the next question with one more point and leaves the store alone |
| `QuizSession.PerfectRun` | src/pages/Quiz.tsx:84-93 | a perfect run of a five-question quiz shows 5 (100%) and saves 6 out of 5 |
| `QuizSession.PerfectGeographyRun` | src/pages/Quiz.tsx:84-93 | catalog quiz "1" answered perfectly by a signed-in user shows 5 (100%) and saves 6 out of 5 |
| `Dashboard.TotalQuizzes` | src/pages/Dashboard.tsx:39 | the count is 0 iff there are no results |
| `Dashboard.SumPercent` | src/pages/Dashboard.tsx:41 | for in-range results the summed percentage lies in [0, 100 * count] |
| `Dashboard.AverageScore` | src/pages/Dashboard.tsx:40-42 | 0 with no results; in [0, 100] for in-range results |
| `Dashboard.SumPercentAppend` | src/pages/Dashboard.tsx:41 | the sum over a concatenation is the sum of the sums |
| `Dashboard.AverageOfOne` | src/pages/Dashboard.tsx:40-48 | with one result the average equals that result's bar in the chart |
| `Dashboard.AverageExample` | src/pages/Dashboard.tsx:40-42 | results 3/5 and 4/5 average to 70 |
| `Dashboard.OvercountedResultShows120` | src/pages/Dashboard.tsx:40-47 | a 6/5 result shows as 120% in the chart and in the average |
| `Dashboard.Bar` | src/pages/Dashboard.tsx:46-47 | defines one chart entry: the result's title and its rounded percentage |
| `Dashboard.ChartData` | src/pages/Dashboard.tsx:45-48 | one bar per result, same order; bar i is titled `results[i].quizTitle` with the rounded percentage of result i |
| `Dashboard.ScorableAppend` | src/pages/Dashboard.tsx:41-47 | results that can each be turned into a percentage can be together |
| `Dashboard.ChartDataAppend` | src/pages/Dashboard.tsx:45-48 | the chart of a concatenation is the concatenation of the charts |
| `Dashboard.ChartDataInRange` | src/pages/Dashboard.tsx:45-48 | in-range results give bars in [0, 100] |
| `Dashboard.LatestQuizTitle` | src/pages/Dashboard.tsx:81-83 | defines the "Latest Quiz" title; its meaning is stated by `Dashboard.LatestIsLastAdded` and `Dashboard.LatestAfterSave` |
| `Dashboard.LatestIsLastAdded` | src/pages/Dashboard.tsx:81-83 | with no results the title is "No quizzes taken yet"; after any list of results followed by `r`, it is `r`'s title |
| `Dashboard.LatestAfterSave` | src/pages/Dashboard.tsx:81-83 | after a save, the user's latest quiz title is the saved result's |
| `Dashboard.DatedAt` | src/pages/Dashboard.tsx:163-164 | the results with a given date, each taken from the input |
| `Dashboard.InsertByDate` | src/pages/Dashboard.tsx:163-164 | inserting into a newest-first list keeps it newest first and adds exactly one element |
| `Dashboard.SortedHistory` | src/pages/Dashboard.tsx:163-164 | the history is newest first and a permutation of the results |
| `Dashboard.InsertByDateStable` | src/pages/Dashboard.tsx:163-164 | an insertion keeps the relative order of results with the same date, the inserted one first |
| `Dashboard.SortedHistoryStable` | src/pages/Dashboard.tsx:163-164 | the sort is stable: for every date, the results with that date appear in their original order |
| `Dashboard.DashboardView.constructor` | src/pages/Dashboard.tsx:18 | the page starts with no results |
| `Dashboard.DashboardView.LoadScores` | src/pages/Dashboard.tsx:20-25 | with a user the results become the store's results for that user; without one they stay |
| `Dashboard.DashboardView.ClearScores` | src/pages/Dashboard.tsx:27-36 | with a user: the store drops the user's records, the results become empty, the count and average are 0 and the latest title is the placeholder; without one nothing changes |

## Left out

- Browser storage and JSON are not modelled: `localStorage.getItem`/`setItem` and `JSON.parse`/`JSON.stringify`. The store holds the decoded table. A malformed stored value makes `JSON.parse` throw in the code, and that path is not modelled.
- Concurrent tabs writing the same key (last write wins) are not modelled: there is one store object.
- Authentication is a parameter. The identity provider's hook, and `ProtectedRoute` built on it, become the `isSignedIn` flag and the optional user id passed to `NextQuestion`, `LoadScores` and `ClearScores`.
- Not-found handling is not modelled: the toast, the navigation and the redirect effect for an unknown quiz id. A session is built only from a quiz with at least one question, and `Catalog.GetQuizByIdSessionReady` shows that every quiz the lookup returns has one.
- Dates are integer timestamps supplied by the caller. `new Date().toISOString()`, `new Date(...).getTime()` and the date-fns formatting of the history table are not modelled, and neither is the ordering of unparsable dates (NaN) in the sort.
- Arithmetic is exact over reals, not IEEE-754 doubles. Percentages use `Floor(x + 1/2)` for `Math.round`. Results with `totalQuestions = 0`, which would divide by zero, are excluded by `Scorable`.
- The progress bar value is not modelled.
- Presentation is not modelled: all JSX, the option styling, the chart rendering, and the pages that only render links (the index page, the quiz list and the navigation bar).
- React's rendering and batching are not modelled. Only their consequence is kept: each handler reads the state as of its call.
- `QuizSession.Session.SelectAnswer`, `QuizSession.Session.RevealAnswer`, `QuizSession.Session.NextQuestion`: their consistency postconditions, like `QuizSession.SelectKeepsConsistent`, `QuizSession.RevealKeepsConsistent` and `QuizSession.NextKeepsConsistent`, hold only for calls the page's buttons allow. The handlers themselves do not enforce those conditions, and neither does the model.
