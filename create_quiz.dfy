/** The quiz-creation form: its fields, the canCreate test and the
    submit handler that calls the creation service with the trimmed title
    and resets or reports afterwards. */
module CreateQuiz {
  import opened Common
  import opened Text
  import opened Types
  import opened OpenTdb
  import opened Platform
  import opened QuizService

  const DefaultCategory: int := 9
  const DefaultAmount: int := 10
  const FallbackMessage: string := "Failed to create quiz."

  /** canCreate: a title of at least three characters once trimmed, and
      between 5 and 50 questions. */
  predicate CanCreate(title: string, amount: int)
  {
    |Trim(title)| >= 3 && 5 <= amount <= 50
  }

  /** Leading whitespace neither enables nor blocks creation, and does not
      reach the title that is stored. */
  lemma CanCreateIgnoresLeadingSpace(c: char, title: string, amount: int)
    requires IsSpace(c)
    ensures CanCreate([c] + title, amount) <==> CanCreate(title, amount)
    ensures Trim([c] + title) == Trim(title)
  {
    TrimSkipsLeadingSpace(c, title);
  }

  /** The client's own two messages are never empty, so they are shown as
      they are; a passed-through rejection shows the browser's message,
      and the fallback only when that message is empty. */
  lemma FetchFailureShownAsIs(e: FetchError)
    ensures !e.Thrown? ==> MessageOr(ErrorMessage(e), FallbackMessage) == ErrorMessage(e)
    ensures e.Thrown? && e.message != "" ==> MessageOr(ErrorMessage(e), FallbackMessage) == e.message
    ensures e.Thrown? && e.message == "" ==> MessageOr(ErrorMessage(e), FallbackMessage) == FallbackMessage
  {
  }

  class CreateQuizForm {
    var title: string
    var categoryId: int
    var difficulty: Difficulty
    var amount: int
    var creating: bool
    var errorMsg: Option<string>
    /** How many times onCreated has been invoked. */
    var createdCount: nat

    constructor ()
      ensures title == "" && categoryId == DefaultCategory && difficulty == Easy && amount == DefaultAmount
      ensures !creating && errorMsg == None && createdCount == 0
    {
      title := "";
      categoryId := DefaultCategory;
      difficulty := Easy;
      amount := DefaultAmount;
      creating := false;
      errorMsg := None;
      createdCount := 0;
    }

    /** The fields the form submits. */
    function Input(): CreateQuizInput
      reads this
    {
      CreateQuizInput(Trim(title), categoryId, difficulty, amount)
    }

    /** The form's fields are the defaults. */
    predicate IsReset()
      reads this
    {
      title == "" && amount == DefaultAmount && difficulty == Easy && categoryId == DefaultCategory
    }

    /** handleCreate for the signed-in user (if any). Without a user or
        when canCreate is false nothing happens. Otherwise the service is
        called with the trimmed title; success resets the form and invokes
        onCreated, failure shows the message and keeps the fields; creating
        is false afterwards either way. */
    method HandleCreate(user: Option<AuthUser>, repo: QuizRepo, env: Env, tick: nat)
      returns (outcome: Option<Result<Quiz, FetchError>>)
      modifies this, repo`quizzes
      ensures !(user.Some? && CanCreate(old(title), old(amount))) ==>
                && outcome.None? && repo.quizzes == old(repo.quizzes)
                && title == old(title) && categoryId == old(categoryId) && difficulty == old(difficulty)
                && amount == old(amount) && creating == old(creating) && errorMsg == old(errorMsg)
                && createdCount == old(createdCount)
      ensures user.Some? && CanCreate(old(title), old(amount)) ==>
                Submitted(old(Input()), UserCreator(user.value), env, tick, outcome, old(repo.All()), repo.All())
                && !creating
                && (outcome.value.Success? ==>
                      && IsReset() && errorMsg == None && createdCount == old(createdCount) + 1)
                && (outcome.value.Failure? ==>
                      && repo.quizzes == old(repo.quizzes)
                      && errorMsg == Some(MessageOr(ErrorMessage(outcome.value.error), FallbackMessage))
                      && title == old(title) && categoryId == old(categoryId)
                      && difficulty == old(difficulty) && amount == old(amount)
                      && createdCount == old(createdCount))
    {
      if user.None? || !CanCreate(title, amount) {
        return None;
      }
      var r := Submit(UserCreator(user.value), repo, env, tick);
      outcome := Some(r);
    }

    /** The part of handleCreate past the guard. */
    method Submit(author: Creator, repo: QuizRepo, env: Env, tick: nat) returns (r: Result<Quiz, FetchError>)
      modifies this, repo`quizzes
      ensures Submitted(old(Input()), author, env, tick, Some(r), old(repo.All()), repo.All())
      ensures !creating
      ensures r.Success? ==> IsReset() && errorMsg == None && createdCount == old(createdCount) + 1
      ensures r.Failure? ==>
                && repo.quizzes == old(repo.quizzes)
                && errorMsg == Some(MessageOr(ErrorMessage(r.error), FallbackMessage))
                && title == old(title) && categoryId == old(categoryId)
                && difficulty == old(difficulty) && amount == old(amount)
                && createdCount == old(createdCount)
    {
      var input := Input();
      creating := true;
      errorMsg := None;
      r := CreateFromOpenTdb(repo, input, author, env, tick);
      if r.Success? {
        ResetAfterCreate();
      } else {
        ShowFailure(ErrorMessage(r.error));
      }
      creating := false;
    }

    /** The reset after a successful creation, and the onCreated call. */
    method ResetAfterCreate()
      modifies this`title, this`amount, this`difficulty, this`categoryId, this`createdCount
      ensures IsReset() && createdCount == old(createdCount) + 1
    {
      title := "";
      amount := DefaultAmount;
      difficulty := Easy;
      categoryId := DefaultCategory;
      createdCount := createdCount + 1;
    }

    /** The catch branch: the error's message, or the fallback text. */
    method ShowFailure(message: string)
      modifies this`errorMsg
      ensures errorMsg == Some(MessageOr(message, FallbackMessage))
    {
      errorMsg := Some(MessageOr(message, FallbackMessage));
    }
  }

  /** What one creation call with this input did: it succeeded exactly
      when the source had the questions, and a created quiz has the
      submitted title and amount and the given author. */
  ghost predicate Submitted(input: CreateQuizInput, author: Creator, env: Env, tick: nat,
                            outcome: Option<Result<Quiz, FetchError>>, before: seq<Quiz>, after: seq<Quiz>)
  {
    && outcome.Some?
    && (outcome.value.Success? <==> Usable(env.api(RequestFor(input))))
    && (outcome.value.Success? ==>
          && after == [outcome.value.value] + before
          && outcome.value.value.title == input.title
          && outcome.value.value.amount == input.amount
          && outcome.value.value.createdBy == author)
  }
}
