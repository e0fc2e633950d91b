/** The records the application stores and passes around: questions and
    quizzes, attempts at a quiz, and user accounts. Timestamps that the
    source keeps as ISO strings and compares through Date are integers
    here (milliseconds). */
module Types {
  import opened Common

  datatype Difficulty = Easy | Medium | Hard

  /** The lower-case spelling used in titles and request parameters. */
  function DifficultyText(d: Difficulty): string
  {
    match d
    case Easy => "easy"
    case Medium => "medium"
    case Hard => "hard"
  }

  datatype Question = Question(
    id: string,
    question: string,
    correctAnswer: string,
    incorrectAnswers: seq<string>,
    allAnswers: seq<string>)

  /** The author of a quiz as stored: the object that was passed in, which
      for a signed-in user also carries the e-mail address. */
  datatype Creator = Creator(id: string, name: string, email: Option<string>)

  datatype Quiz = Quiz(
    id: string,
    title: string,
    categoryId: int,
    categoryName: string,
    difficulty: Difficulty,
    amount: int,
    createdAt: string,
    createdBy: Creator,
    questions: seq<Question>)

  datatype CreateQuizInput = CreateQuizInput(
    title: string,
    categoryId: int,
    difficulty: Difficulty,
    amount: int)

  /** A quiz attempt as handed to the results store, before it has an id. */
  datatype AttemptDraft = AttemptDraft(
    quizId: string,
    quizTitle: string,
    userId: string,
    userName: string,
    total: int,
    correct: int,
    percent: int,
    startedAt: int,
    finishedAt: int)

  datatype QuizAttempt = QuizAttempt(
    id: string,
    quizId: string,
    quizTitle: string,
    userId: string,
    userName: string,
    total: int,
    correct: int,
    percent: int,
    startedAt: int,
    finishedAt: int)

  datatype UserRecord = UserRecord(id: string, name: string, email: string, password: string)

  /** A user without the password. */
  datatype AuthUser = AuthUser(id: string, name: string, email: string)

  /** The creator reference a signed-in user's quiz carries. */
  function UserCreator(u: AuthUser): Creator
  {
    Creator(u.id, u.name, Some(u.email))
  }

  /** The reserved identity of quizzes made by seeding. */
  const SeedCreator: Creator := Creator("seed", "Seed", None)
}
