/** The static quiz catalog (src/data/quizzes.ts): the `quizzes` constant,
    lookup by id, and the facts about the data that the quiz session relies on. */
module Catalog {
  import opened QuizTypes

  /** The questions of Geography. */
  const GeographyQuestions: seq<QuizQuestion> := [
    QuizQuestion("geo-1", "What is the capital of France?",
      ["London", "Berlin", "Paris", "Madrid"], "Paris"),
    QuizQuestion("geo-2", "Which is the largest ocean on Earth?",
      ["Atlantic Ocean", "Indian Ocean", "Arctic Ocean", "Pacific Ocean"], "Pacific Ocean"),
    QuizQuestion("geo-3", "What is the longest river in the world?",
      ["Amazon", "Nile", "Mississippi", "Yangtze"], "Nile"),
    QuizQuestion("geo-4", "Which country has the largest population?",
      ["India", "United States", "China", "Indonesia"], "China"),
    QuizQuestion("geo-5", "On which continent is the Sahara Desert located?",
      ["Asia", "Africa", "South America", "Australia"], "Africa")
  ]

  /** Quiz "Basic Geography". */
  const Geography: Quiz :=
    Quiz("1", "Basic Geography",
      "Test your knowledge of world geography with these basic questions!",
      Some("https://images.unsplash.com/photo-1589519160732-57fc498494f8?w=800&auto=format&fit=crop&q=60&ixlib=rb-4.0.3&ixid=M3wxMjA3fDB8MHxzZWFyY2h8NHx8d29ybGQlMjBtYXB8ZW58MHx8MHx8fDA%3D"),
      "Geography",
      GeographyQuestions)

  /** The questions of Science. */
  const ScienceQuestions: seq<QuizQuestion> := [
    QuizQuestion("sci-1", "What is the chemical symbol for gold?",
      ["Go", "Au", "Ag", "Gd"], "Au"),
    QuizQuestion("sci-2", "What is the hardest natural substance on Earth?",
      ["Ruby", "Diamond", "Quartz", "Titanium"], "Diamond"),
    QuizQuestion("sci-3", "Which planet is known as the Red Planet?",
      ["Venus", "Jupiter", "Mars", "Saturn"], "Mars"),
    QuizQuestion("sci-4", "What is the largest organ in the human body?",
      ["Brain", "Liver", "Lungs", "Skin"], "Skin"),
    QuizQuestion("sci-5", "What force keeps us on the ground?",
      ["Electromagnetic Force", "Nuclear Force", "Gravity", "Friction"], "Gravity")
  ]

  /** Quiz "Science Trivia". */
  const Science: Quiz :=
    Quiz("2", "Science Trivia",
      "Challenge yourself with these science questions covering various fields!",
      Some("https://images.unsplash.com/photo-1564325724739-bae0bd08762c?w=800&auto=format&fit=crop&q=60&ixlib=rb-4.0.3&ixid=M3wxMjA3fDB8MHxzZWFyY2h8M3x8c2NpZW5jZXxlbnwwfHwwfHx8MA%3D%3D"),
      "Science",
      ScienceQuestions)

  /** The questions of History. */
  const HistoryQuestions: seq<QuizQuestion> := [
    QuizQuestion("hist-1", "In which year did World War II end?",
      ["1943", "1945", "1947", "1950"], "1945"),
    QuizQuestion("hist-2", "Who was the first Emperor of Rome?",
      ["Julius Caesar", "Augustus", "Nero", "Constantine"], "Augustus"),
    QuizQuestion("hist-3", "Which civilization built Machu Picchu?",
      ["Aztec", "Maya", "Inca", "Olmec"], "Inca"),
    QuizQuestion("hist-4", "Who painted the Mona Lisa?",
      ["Michelangelo", "Leonardo da Vinci", "Raphael", "Donatello"], "Leonardo da Vinci"),
    QuizQuestion("hist-5", "What was the name of the first artificial satellite launched into space?",
      ["Explorer 1", "Sputnik 1", "Vostok 1", "Apollo 1"], "Sputnik 1")
  ]

  /** Quiz "History Knowledge". */
  const History: Quiz :=
    Quiz("3", "History Knowledge",
      "Journey through time with these historical questions!",
      Some("https://images.unsplash.com/photo-1461360370896-922624d12aa1?w=800&auto=format&fit=crop&q=60&ixlib=rb-4.0.3&ixid=M3wxMjA3fDB8MHxzZWFyY2h8Mnx8aGlzdG9yeXxlbnwwfHwwfHx8MA%3D%3D"),
      "History",
      HistoryQuestions)

  /** The three quizzes, in catalog order. */
  const Quizzes: seq<Quiz> := [Geography, Science, History]

  /** `Array.prototype.find` by quiz id: the first quiz carrying `id`, if any. */
  function FindQuiz(qs: seq<Quiz>, id: string): (r: Option<Quiz>)
    ensures r.None? <==> forall i :: 0 <= i < |qs| ==> qs[i].id != id
    ensures r.Some? ==> exists i :: 0 <= i < |qs| && qs[i] == r.value && qs[i].id == id &&
                                    forall j :: 0 <= j < i ==> qs[j].id != id
  {
    if qs == [] then None
    else if qs[0].id == id then Some(qs[0])
    else
      var r := FindQuiz(qs[1..], id);
      assert r.Some? ==> exists i :: 0 <= i < |qs[1..]| && qs[1..][i] == r.value && qs[1..][i].id == id &&
                                     forall j :: 0 <= j < i ==> qs[1..][j].id != id;
      r
  }

  /** `getQuizById`. */
  function GetQuizById(id: string): (r: Option<Quiz>)
    ensures r.Some? ==> r.value in Quizzes && r.value.id == id
    ensures r.None? <==> forall z :: z in Quizzes ==> z.id != id
  {
    FindQuiz(Quizzes, id)
  }

  /** The correct answer is one of the options, and no option is listed twice. */
  predicate QuestionWellFormed(q: QuizQuestion) {
    && q.correctAnswer in q.options
    && forall i, j :: 0 <= i < j < |q.options| ==> q.options[i] != q.options[j]
  }

  /** Five questions, each well formed, with pairwise distinct ids. */
  predicate QuestionsWellFormed(qs: seq<QuizQuestion>) {
    && |qs| == 5
    && (forall k :: 0 <= k < |qs| ==> QuestionWellFormed(qs[k]))
    && DistinctQuestionIds(qs)
  }

  /** A quiz whose questions are well formed. */
  predicate QuizWellFormed(z: Quiz) {
    QuestionsWellFormed(z.questions)
  }

  /** A question with four pairwise distinct options, one of them the correct answer, is well formed. */
  lemma FourOptionsWellFormed(q: QuizQuestion)
    requires |q.options| == 4 && q.correctAnswer in q.options
    requires q.options[0] != q.options[1] && q.options[0] != q.options[2] && q.options[0] != q.options[3]
    requires q.options[1] != q.options[2] && q.options[1] != q.options[3] && q.options[2] != q.options[3]
    ensures QuestionWellFormed(q)
  {
  }

  lemma GeographyWellFormed()
    ensures QuestionsWellFormed(GeographyQuestions)
  {
    var qs := GeographyQuestions;
    assert QuestionWellFormed(qs[0]) by { FourOptionsWellFormed(qs[0]); }
    assert QuestionWellFormed(qs[1]) by { FourOptionsWellFormed(qs[1]); }
    assert QuestionWellFormed(qs[2]) by { FourOptionsWellFormed(qs[2]); }
    assert QuestionWellFormed(qs[3]) by { FourOptionsWellFormed(qs[3]); }
    assert QuestionWellFormed(qs[4]) by { FourOptionsWellFormed(qs[4]); }
  }

  lemma ScienceWellFormed()
    ensures QuestionsWellFormed(ScienceQuestions)
  {
    var qs := ScienceQuestions;
    assert QuestionWellFormed(qs[0]) by { FourOptionsWellFormed(qs[0]); }
    assert QuestionWellFormed(qs[1]) by { FourOptionsWellFormed(qs[1]); }
    assert QuestionWellFormed(qs[2]) by { FourOptionsWellFormed(qs[2]); }
    assert QuestionWellFormed(qs[3]) by { FourOptionsWellFormed(qs[3]); }
    assert QuestionWellFormed(qs[4]) by { FourOptionsWellFormed(qs[4]); }
  }

  lemma HistoryWellFormed()
    ensures QuestionsWellFormed(HistoryQuestions)
  {
    var qs := HistoryQuestions;
    assert QuestionWellFormed(qs[0]) by { FourOptionsWellFormed(qs[0]); }
    assert QuestionWellFormed(qs[1]) by { FourOptionsWellFormed(qs[1]); }
    assert QuestionWellFormed(qs[2]) by { FourOptionsWellFormed(qs[2]); }
    assert QuestionWellFormed(qs[3]) by { FourOptionsWellFormed(qs[3]); }
    assert QuestionWellFormed(qs[4]) by { FourOptionsWellFormed(qs[4]); }
  }

  /** Every quiz of the catalog is well formed. */
  lemma CatalogWellFormed()
    ensures forall z :: z in Quizzes ==> QuizWellFormed(z)
  {
    GeographyWellFormed();
    ScienceWellFormed();
    HistoryWellFormed();
  }

  /** The quiz ids "1", "2", "3" are pairwise distinct. */
  lemma QuizIdsDistinct()
    ensures forall i, j :: 0 <= i < j < |Quizzes| ==> Quizzes[i].id != Quizzes[j].id
  {
  }

  /** Looking up the id of any catalog quiz returns that very quiz. */
  lemma GetQuizByIdFindsCarrier(i: int)
    requires 0 <= i < |Quizzes|
    ensures GetQuizById(Quizzes[i].id) == Some(Quizzes[i])
  {
    QuizIdsDistinct();
  }

  /** Exactly the ids "1", "2" and "3" are found. */
  lemma GetQuizByIdDomain(id: string)
    ensures GetQuizById(id).Some? <==> id == "1" || id == "2" || id == "3"
  {
  }

  /** Whatever the lookup returns can drive a quiz session: it has questions,
      their ids are distinct, and each correct answer is among its options. */
  lemma GetQuizByIdSessionReady(id: string)
    ensures GetQuizById(id).Some? ==>
      var z := GetQuizById(id).value;
      && |z.questions| == 5
      && DistinctQuestionIds(z.questions)
      && forall k :: 0 <= k < |z.questions| ==> z.questions[k].correctAnswer in z.questions[k].options
  {
    CatalogWellFormed();
  }
}
