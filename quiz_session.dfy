/** The quiz-taking session (src/pages/Quiz.tsx): the component's state
    fields and its four event handlers. Each handler reads the state as it
    was when the handler was called: a state setter in the component takes
    effect only at the next render, so the values a handler reads after
    calling a setter are still the pre-call values. The methods below
    capture that pre-call state before assigning. */
module QuizSession {
  import opened QuizTypes
  import opened Rounding
  import ScoreService
  import Catalog

  /** JavaScript truthiness of the pending selection: neither undefined nor "". */
  predicate Truthy(selection: Option<string>) {
    selection.Some? && selection.value != ""
  }

  /** The answer recorded for `q` is its correct option. */
  predicate AnsweredCorrectly(q: QuizQuestion, answers: map<string, string>) {
    q.id in answers && answers[q.id] == q.correctAnswer
  }

  /** How many of the first `n` questions carry a correct recorded answer. */
  function CorrectCount(qs: seq<QuizQuestion>, answers: map<string, string>, n: nat): (c: nat)
    requires n <= |qs|
    ensures c <= n
  {
    if n == 0 then 0
    else CorrectCount(qs, answers, n - 1) + (if AnsweredCorrectly(qs[n - 1], answers) then 1 else 0)
  }

  /** Recording an answer under the id of question `k` leaves the count over
      the first `n` questions alone when none of them shares that id. */
  lemma {:induction false} CorrectCountFrame(qs: seq<QuizQuestion>, answers: map<string, string>, n: nat, k: nat, v: string)
    requires n <= k < |qs|
    requires forall i :: 0 <= i < n ==> qs[i].id != qs[k].id
    ensures CorrectCount(qs, answers[qs[k].id := v], n) == CorrectCount(qs, answers, n)
  {
    if n > 0 {
      CorrectCountFrame(qs, answers, n - 1, k, v);
    }
  }

  /** The ids of the first `n` questions. */
  function AnsweredIds(qs: seq<QuizQuestion>, n: nat): set<string>
    requires n <= |qs|
  {
    set i | 0 <= i < n :: qs[i].id
  }

  /** The six state fields other than the quiz itself. */
  datatype State = State(
    currentQuestionIndex: int,
    selectedAnswer: Option<string>,
    answers: map<string, string>,
    isRevealed: bool,
    isComplete: bool,
    score: int)

  /** The state on first render and after "Try Again". */
  const Initial := State(0, None, map[], false, false, 0)

  /** How many questions have had their answer revealed in this attempt. */
  function RevealedCount(st: State): int {
    st.currentQuestionIndex + (if st.isRevealed || st.isComplete then 1 else 0)
  }

  /** What holds in every state reached by the buttons the page renders:
      "Check Answer" only while not revealed, "Next Question"/"Complete Quiz"
      only while revealed, the options and both buttons only before
      completion, and "Try Again" only after it. The recorded answers are
      those of the revealed questions, the revealed selection is the answer
      recorded for the current question, and the score counts the correct ones. */
  predicate ConsistentState(qs: seq<QuizQuestion>, st: State) {
    && 0 <= st.currentQuestionIndex < |qs|
    && (st.isComplete ==>
          !st.isRevealed && st.selectedAnswer == None && st.currentQuestionIndex == |qs| - 1)
    && (st.isRevealed ==>
          && st.selectedAnswer.Some?
          && qs[st.currentQuestionIndex].id in st.answers
          && st.answers[qs[st.currentQuestionIndex].id] == st.selectedAnswer.value)
    && st.answers.Keys == AnsweredIds(qs, RevealedCount(st))
    && 0 <= st.score <= RevealedCount(st)
    && (DistinctQuestionIds(qs) ==> st.score == CorrectCount(qs, st.answers, RevealedCount(st)))
  }

  /** The state after `handleSelectAnswer(value)`. */
  function AfterSelect(st: State, value: string): State {
    if st.isRevealed then st else st.(selectedAnswer := Some(value))
  }

  /** The state after `handleRevealAnswer`. */
  function AfterReveal(qs: seq<QuizQuestion>, st: State): State
    requires 0 <= st.currentQuestionIndex < |qs|
  {
    if !Truthy(st.selectedAnswer) then st
    else
      var q, picked := qs[st.currentQuestionIndex], st.selectedAnswer.value;
      st.(isRevealed := true,
          answers := st.answers[q.id := picked],
          score := st.score + (if picked == q.correctAnswer then 1 else 0))
  }

  /** The state after `handleNextQuestion`. */
  function AfterNext(qs: seq<QuizQuestion>, st: State): State {
    if st.currentQuestionIndex == |qs| - 1 then
      st.(selectedAnswer := None, isRevealed := false, isComplete := true)
    else
      st.(selectedAnswer := None, isRevealed := false,
          currentQuestionIndex := st.currentQuestionIndex + 1)
  }

  /** The first render is consistent. */
  lemma InitialConsistent(qs: seq<QuizQuestion>)
    requires |qs| > 0
    ensures ConsistentState(qs, Initial)
  {
    assert AnsweredIds(qs, 0) == {};
  }

  /** Picking an option before completion keeps the state consistent. */
  lemma SelectKeepsConsistent(qs: seq<QuizQuestion>, st: State, value: string)
    requires ConsistentState(qs, st) && !st.isComplete
    ensures ConsistentState(qs, AfterSelect(st, value))
  {
  }

  /** "Check Answer", clicked while the answer is hidden, keeps the state
      consistent: the question's id joins the recorded answers and the score
      grows exactly when the new answer is correct. */
  lemma RevealKeepsConsistent(qs: seq<QuizQuestion>, st: State)
    requires ConsistentState(qs, st) && !st.isRevealed && !st.isComplete
    ensures ConsistentState(qs, AfterReveal(qs, st))
  {
    if Truthy(st.selectedAnswer) {
      var k, picked := st.currentQuestionIndex, st.selectedAnswer.value;
      assert RevealedCount(AfterReveal(qs, st)) == k + 1;
      assert AnsweredIds(qs, k + 1) == AnsweredIds(qs, k) + {qs[k].id};
      if DistinctQuestionIds(qs) {
        CorrectCountFrame(qs, st.answers, k, k, picked);
      }
    }
  }

  /** "Next Question"/"Complete Quiz", clicked once the answer is revealed,
      keeps the state consistent: the revealed count does not change. */
  lemma NextKeepsConsistent(qs: seq<QuizQuestion>, st: State)
    requires ConsistentState(qs, st) && st.isRevealed && !st.isComplete
    ensures ConsistentState(qs, AfterNext(qs, st))
  {
    assert RevealedCount(AfterNext(qs, st)) == RevealedCount(st);
  }

  /** `score`, plus one if the pending selection is the current question's
      correct answer: the formula of both the completion screen and the saved result. */
  function PendingScore(qs: seq<QuizQuestion>, st: State): (s: int)
    requires 0 <= st.currentQuestionIndex < |qs|
    ensures st.score <= s <= st.score + 1
    ensures st.selectedAnswer == None ==> s == st.score
  {
    st.score + (if st.selectedAnswer == Some(qs[st.currentQuestionIndex].correctAnswer) then 1 else 0)
  }

  /** Completing the quiz from a consistent state: the screen then shows the
      number of correct answers, while the result saved from the pre-call
      state is one higher exactly when the last answer was correct. */
  lemma CompletionOvercounts(qs: seq<QuizQuestion>, st: State)
    requires ConsistentState(qs, st) && st.isRevealed && !st.isComplete
    requires st.currentQuestionIndex == |qs| - 1
    requires DistinctQuestionIds(qs)
    ensures PendingScore(qs, AfterNext(qs, st)) == CorrectCount(qs, st.answers, |qs|)
    ensures PendingScore(qs, st) ==
      PendingScore(qs, AfterNext(qs, st)) + (if AnsweredCorrectly(qs[|qs| - 1], st.answers) then 1 else 0)
  {
    var q := qs[|qs| - 1];
    assert q.id in st.answers by {
      assert q.id in AnsweredIds(qs, |qs|);
    }
  }

  class Session {
    /** The quiz being taken; the component never replaces it. */
    const quiz: Quiz
    var currentQuestionIndex: int
    var selectedAnswer: Option<string>
    /** Recorded answers, keyed by question id. */
    var answers: map<string, string>
    var isRevealed: bool
    var isComplete: bool
    var score: int

    /** All state fields at once. */
    function Snapshot(): State
      reads this
    {
      State(currentQuestionIndex, selectedAnswer, answers, isRevealed, isComplete, score)
    }

    /** The current question exists. */
    predicate Valid()
      reads this
    {
      |quiz.questions| > 0 && 0 <= currentQuestionIndex < |quiz.questions|
    }

    function CurrentQuestion(): (q: QuizQuestion)
      reads this
      requires Valid()
      ensures q in quiz.questions
    {
      quiz.questions[currentQuestionIndex]
    }

    function IsLastQuestion(): bool
      reads this
    {
      currentQuestionIndex == |quiz.questions| - 1
    }

    /** The state is one the page's buttons can reach. */
    predicate Consistent()
      reads this
    {
      Valid() && ConsistentState(quiz.questions, Snapshot())
    }

    /** First render of the page for a quiz the catalog returned. */
    constructor (quiz: Quiz)
      requires |quiz.questions| > 0
      ensures this.quiz == quiz
      ensures Snapshot() == Initial && Consistent()
    {
      this.quiz := quiz;
      currentQuestionIndex := 0;
      selectedAnswer := None;
      answers := map[];
      isRevealed := false;
      isComplete := false;
      score := 0;
      InitialConsistent(quiz.questions);
    }

    /** `handleSelectAnswer`: ignored once the answer is revealed, otherwise
        only the pending selection changes. */
    method SelectAnswer(value: string)
      modifies this
      ensures Snapshot() == AfterSelect(old(Snapshot()), value)
      ensures old(Consistent()) && !old(isComplete) ==> Consistent()
    {
      ghost var before := Snapshot();
      if isRevealed {
        return;
      }
      selectedAnswer := Some(value);
      if Valid() && ConsistentState(quiz.questions, before) && !before.isComplete {
        SelectKeepsConsistent(quiz.questions, before, value);
      }
    }

    /** `handleRevealAnswer`: with no (or an empty) selection nothing happens;
        otherwise the answer is revealed, recorded under the question's id,
        and the score goes up by one exactly when the selection is correct. */
    method RevealAnswer()
      requires Valid()
      modifies this
      ensures Valid()
      ensures Snapshot() == AfterReveal(quiz.questions, old(Snapshot()))
      ensures old(Consistent()) && !old(isRevealed) && !old(isComplete) ==> Consistent()
    {
      if !Truthy(selectedAnswer) {
        return;
      }
      ghost var before := Snapshot();
      var currentQuestion := CurrentQuestion();
      var picked := selectedAnswer.value;
      isRevealed := true;
      var isCorrect := picked == currentQuestion.correctAnswer;
      answers := answers[currentQuestion.id := picked];
      if isCorrect {
        score := score + 1;
      }
      if ConsistentState(quiz.questions, before) && !before.isRevealed && !before.isComplete {
        RevealKeepsConsistent(quiz.questions, before);
      }
    }

    /** `handleNextQuestion`: clears the selection and the reveal flag; on the
        last question it completes the quiz and, when a user is signed in,
        saves one result whose score is the pre-call score plus one more if
        the pre-call selection is correct; otherwise it moves to the next
        question. */
    method NextQuestion(isSignedIn: bool, user: Option<string>, now: int, store: ScoreService.ScoreStore)
      returns (saved: Option<QuizResult>)
      requires Valid()
      modifies this, store
      ensures Valid()
      ensures Snapshot() == AfterNext(quiz.questions, old(Snapshot()))
      ensures saved.Some? <==> old(IsLastQuestion()) && isSignedIn && user.Some?
      ensures saved.Some? ==>
        saved.value == QuizResult(quiz.id, quiz.title, PendingScore(quiz.questions, old(Snapshot())),
                                  |quiz.questions|, now)
      ensures saved.Some? ==>
        && store.GetAllScores() == ScoreService.WithResult(old(store.GetAllScores()), user.value, saved.value)
        && store.GetUserScores(user.value) == old(store.GetUserScores(user.value)) + [saved.value]
      ensures saved.None? ==> store.stored == old(store.stored)
      ensures old(Consistent()) && old(isRevealed) && !old(isComplete) ==> Consistent()
    {
      var snapshot := Snapshot();
      var isLastQuestion := IsLastQuestion();
      selectedAnswer := None;
      isRevealed := false;
      if isLastQuestion {
        isComplete := true;
        assert Snapshot() == AfterNext(quiz.questions, snapshot);
        if isSignedIn && user.Some? {
          var result := QuizResult(quiz.id, quiz.title, PendingScore(quiz.questions, snapshot),
                                   |quiz.questions|, now);
          store.SaveQuizResult(user.value, result);
          assert Snapshot() == AfterNext(quiz.questions, snapshot);
          saved := Some(result);
        } else {
          saved := None;
        }
      } else {
        currentQuestionIndex := currentQuestionIndex + 1;
        saved := None;
      }
      assert Snapshot() == AfterNext(quiz.questions, snapshot);
      if ConsistentState(quiz.questions, snapshot) && snapshot.isRevealed && !snapshot.isComplete {
        NextKeepsConsistent(quiz.questions, snapshot);
      }
    }

    /** `handleRetry`: back to the initial state. */
    method Retry()
      requires Valid()
      modifies this
      ensures Snapshot() == Initial && Consistent()
    {
      currentQuestionIndex := 0;
      selectedAnswer := None;
      answers := map[];
      isRevealed := false;
      isComplete := false;
      score := 0;
      InitialConsistent(quiz.questions);
    }

    /** The score on the completion screen: `score`, plus one if the pending
        selection is correct; on that screen the selection is already cleared. */
    function FinalScore(): (f: int)
      reads this
      requires Valid()
      ensures Consistent() && isComplete ==> f == score && 0 <= f <= |quiz.questions|
    {
      PendingScore(quiz.questions, Snapshot())
    }

    /** The percentage on the completion screen. */
    function Percentage(): (p: int)
      reads this
      requires Valid()
      ensures Consistent() && isComplete ==> 0 <= p <= 100
    {
      RoundedPercent(FinalScore(), |quiz.questions|)
    }

    /** The "passed" message: the rounded percentage is at least 70, which
        is 200 * score >= 139 * questions on the exact fraction. */
    function Passed(): (b: bool)
      reads this
      requires Valid()
      ensures b <==> 200 * FinalScore() >= 139 * |quiz.questions|
    {
      RoundedPercentAtLeast(FinalScore(), |quiz.questions|, 70);
      Percentage() >= 70
    }
  }

  /** Four of five passes with 80%; three of five fails with 60%. */
  lemma FiveQuestionPassMark()
    ensures RoundedPercent(4, 5) == 80 && RoundedPercent(4, 5) >= 70
    ensures RoundedPercent(3, 5) == 60 && RoundedPercent(3, 5) < 70
  {
  }

  /** A user picks the correct option of the current question and clicks "Check Answer". */
  method CheckCorrectAnswer(session: Session)
    requires session.Consistent() && !session.isRevealed && !session.isComplete
    requires DistinctQuestionIds(session.quiz.questions)
    requires session.CurrentQuestion().correctAnswer != ""
    modifies session
    ensures session.Consistent() && session.isRevealed && !session.isComplete
    ensures session.currentQuestionIndex == old(session.currentQuestionIndex)
    ensures session.selectedAnswer == Some(session.CurrentQuestion().correctAnswer)
    ensures session.score == old(session.score) + 1
  {
    session.SelectAnswer(session.CurrentQuestion().correctAnswer);
    session.RevealAnswer();
  }

  /** The correct answer is checked on a question before the last, and "Next Question" is clicked. */
  method CorrectAndContinue(session: Session, store: ScoreService.ScoreStore)
    requires session.Consistent() && !session.isRevealed && !session.isComplete
    requires !session.IsLastQuestion()
    requires DistinctQuestionIds(session.quiz.questions)
    requires session.CurrentQuestion().correctAnswer != ""
    modifies session, store
    ensures session.Consistent() && !session.isRevealed && !session.isComplete
    ensures session.currentQuestionIndex == old(session.currentQuestionIndex) + 1
    ensures session.score == old(session.score) + 1
    ensures store.stored == old(store.stored)
  {
    CheckCorrectAnswer(session);
    var saved := session.NextQuestion(true, Some("user"), 0, store);
  }

  /** A signed-in user who answers every question of a five-question quiz
      correctly sees 5/5 (100%) but has 6/5 saved. */
  method PerfectRun(quiz: Quiz) returns (saved: QuizResult, displayed: int, percentage: int)
    requires |quiz.questions| == 5 && DistinctQuestionIds(quiz.questions)
    requires forall k :: 0 <= k < 5 ==> quiz.questions[k].correctAnswer != ""
    ensures saved.quizId == quiz.id && saved.score == 6 && saved.totalQuestions == 5
    ensures displayed == 5 && percentage == 100
  {
    var store := new ScoreService.ScoreStore();
    var session := new Session(quiz);
    CorrectAndContinue(session, store);
    CorrectAndContinue(session, store);
    CorrectAndContinue(session, store);
    CorrectAndContinue(session, store);
    CheckCorrectAnswer(session);
    var result := session.NextQuestion(true, Some("user"), 0, store);
    saved := result.value;
    displayed := session.FinalScore();
    percentage := session.Percentage();
  }

  /** Quiz "1", "Basic Geography", run through perfectly shows 5/5 (100%) and saves 6/5. */
  method PerfectGeographyRun() returns (saved: QuizResult, displayed: int, percentage: int)
    ensures saved.quizId == "1" && saved.score == 6 && saved.totalQuestions == 5
    ensures displayed == 5 && percentage == 100
  {
    Catalog.GetQuizByIdSessionReady("1");
    var quiz := Catalog.GetQuizById("1").value;
    assert forall k :: 0 <= k < 5 ==> quiz.questions[k].correctAnswer in quiz.questions[k].options;
    saved, displayed, percentage := PerfectRun(quiz);
  }
}
