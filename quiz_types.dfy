/** The records shared by the catalog, the score store, the quiz session and
    the dashboard (src/types/quiz.ts). Timestamps, which the application
    keeps as ISO-8601 strings, are abstracted to integers that order the
    same way. */
module QuizTypes {

  datatype Option<+T> = None | Some(value: T)

  /** One multiple-choice question. */
  datatype QuizQuestion = QuizQuestion(
    id: string,
    question: string,
    options: seq<string>,
    correctAnswer: string)

  /** A quiz of the catalog; `image` is optional. */
  datatype Quiz = Quiz(
    id: string,
    title: string,
    description: string,
    image: Option<string>,
    category: string,
    questions: seq<QuizQuestion>)

  /** The outcome of one completed attempt. `date` is the completion time. */
  datatype QuizResult = QuizResult(
    quizId: string,
    quizTitle: string,
    score: int,
    totalQuestions: int,
    date: int)

  /** All results of one user, in completion order. */
  datatype UserScore = UserScore(userId: string, results: seq<QuizResult>)

  /** No two questions of `qs` share an id, so answers keyed by id never collide. */
  predicate DistinctQuestionIds(qs: seq<QuizQuestion>) {
    forall i, j :: 0 <= i < j < |qs| ==> qs[i].id != qs[j].id
  }
}
