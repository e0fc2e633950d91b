/** The quiz repository and the creation service: a persisted list of
    quizzes, newest first, and the operation that fetches questions and
    prepends a new quiz built from them. */
module QuizService {
  import opened Common
  import opened Types
  import opened OpenTdb
  import opened Platform

  /** The two storage keys that belong to quizzes: the quiz list
      (tq_quizzes) and the seed-completion flag (tq_quizzes_seed_done,
      written by the seeding engine). The flag is the raw string
      localStorage.getItem returns. */
  class QuizRepo {
    var quizzes: Slot<seq<Quiz>>
    var seedFlag: Option<string>

    constructor (quizzes: Slot<seq<Quiz>>, seedFlag: Option<string>)
      ensures this.quizzes == quizzes && this.seedFlag == seedFlag
    {
      this.quizzes := quizzes;
      this.seedFlag := seedFlag;
    }

    /** readQuizzes, which is what getAll returns. */
    function All(): seq<Quiz>
      reads this
    {
      ReadList(quizzes)
    }

    /** QuizService.getById: a read that changes nothing. */
    function GetById(id: string): (r: Option<Quiz>)
      reads this
    {
      FindById(All(), id)
    }
  }

  /** The first quiz in the list with the given id (Array.prototype.find). */
  function FindById(qs: seq<Quiz>, id: string): (r: Option<Quiz>)
    ensures r.Some? ==> exists k :: 0 <= k < |qs| && qs[k] == r.value && qs[k].id == id
                                 && forall m :: 0 <= m < k ==> qs[m].id != id
    ensures r.None? <==> forall k :: 0 <= k < |qs| ==> qs[k].id != id
  {
    if qs == [] then None
    else if qs[0].id == id then Some(qs[0])
    else FindById(qs[1..], id)
  }

  /** A quiz just put at the head is what getById finds for its id. */
  lemma FindAfterInsert(q: Quiz, qs: seq<Quiz>)
    ensures FindById([q] + qs, q.id) == Some(q)
  {
  }

  /** The record createFromOpenTDB builds; 'id' in author holds for both
      kinds of author, so createdBy is the author itself. */
  function NewQuiz(input: CreateQuizInput, author: Creator, questions: seq<Question>, id: string, createdAt: string): Quiz
  {
    Quiz(id, input.title, input.categoryId, CategoryNameById(input.categoryId),
         input.difficulty, input.amount, createdAt, author, questions)
  }

  /** The request createFromOpenTDB makes for an input. */
  function RequestFor(input: CreateQuizInput): Request
  {
    Request(input.amount, input.categoryId, input.difficulty)
  }

  /** QuizService.createFromOpenTDB issued at a tick. The fetch comes first:
      when it fails nothing is written and its error is returned unchanged;
      otherwise the new quiz is put at the head of the stored list. */
  method CreateFromOpenTdb(repo: QuizRepo, input: CreateQuizInput, author: Creator, env: Env, tick: nat)
    returns (r: Result<Quiz, FetchError>)
    modifies repo`quizzes
    ensures var fetched := Fetch(env, RequestFor(input), tick);
            && (fetched.Failure? ==> r == Failure(fetched.error) && repo.quizzes == old(repo.quizzes))
            && (fetched.Success? ==> r.Success? && r.value.questions == fetched.value)
    ensures r.Success? <==> Usable(env.api(RequestFor(input)))
    ensures r.Success? ==> repo.All() == [r.value] + old(repo.All())
    ensures r.Success? ==> && r.value.title == input.title
                           && r.value.categoryId == input.categoryId
                           && r.value.categoryName == CategoryNameById(input.categoryId)
                           && r.value.difficulty == input.difficulty
                           && r.value.amount == input.amount
                           && r.value.createdBy == author
                           && r.value.id == env.freshId(tick, 0)
                           && r.value.createdAt == env.clock(tick)
  {
    var fetched := Fetch(env, RequestFor(input), tick);
    if fetched.Failure? {
      return Failure(fetched.error);
    }
    var quiz := NewQuiz(input, author, fetched.value, env.freshId(tick, 0), env.clock(tick));
    var all := repo.All();
    all := [quiz] + all;
    repo.quizzes := Holds(all);
    r := Success(quiz);
  }
}
