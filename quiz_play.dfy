/** The play page: the answers chosen so far, the completeness test that
    enables submission, the score and the attempt record written on
    submit. */
module QuizPlay {
  import opened Common
  import opened Types
  import opened QuizService
  import opened ResultsService

  /** allAnswered: a quiz with questions, and as many chosen answers as
      questions. */
  predicate AllAnswered(total: nat, answers: map<string, string>)
  {
    total > 0 && |answers| == total
  }

  /** The answer chosen for q is its correct answer (a missing answer is
      undefined, which equals no string). */
  predicate Hit(q: Question, answers: map<string, string>)
  {
    q.id in answers && answers[q.id] == q.correctAnswer
  }

  /** The reduce over the questions adding one per correct answer. */
  function CountCorrect(qs: seq<Question>, answers: map<string, string>): (r: nat)
    ensures r <= |qs|
    ensures r == |qs| <==> forall k :: 0 <= k < |qs| ==> Hit(qs[k], answers)
    ensures r == 0 <==> forall k :: 0 <= k < |qs| ==> !Hit(qs[k], answers)
  {
    if qs == [] then 0
    else (if Hit(qs[0], answers) then 1 else 0) + CountCorrect(qs[1..], answers)
  }

  /** The score is the number of questions answered correctly. */
  lemma {:induction false} CountCorrectCountsHits(qs: seq<Question>, answers: map<string, string>)
    ensures CountCorrect(qs, answers) == |Filter(qs, (q: Question) => Hit(q, answers))|
  {
    if qs != [] {
      CountCorrectCountsHits(qs[1..], answers);
    }
  }

  /** Math.round(correct / total * 100), as exact half-up rounding. */
  function Percent(correct: nat, total: nat): int
    requires total > 0
  {
    RoundDiv(correct * 100, total)
  }

  /** A score of at most the question count is a percentage in [0, 100]:
      0 exactly when nothing is correct, 100 when everything is. */
  lemma PercentBounds(correct: nat, total: nat)
    requires total > 0 && correct <= total
    ensures 0 <= Percent(correct, total) <= 100
    ensures correct == 0 ==> Percent(correct, total) == 0
    ensures correct == total ==> Percent(correct, total) == 100
  {
    RoundDivWithin(correct * 100, total, 0, 100);
    if correct == 0 {
      RoundDivWithin(0, total, 0, 0);
    }
    if correct == total {
      RoundDivWithin(total * 100, total, 100, 100);
    }
  }

  /** The score shown in the result dialog. */
  datatype Score = Score(correct: int, total: int)

  class QuizPlayPage {
    var quiz: Option<Quiz>
    var answers: map<string, string>
    var submitting: bool
    var showResult: bool
    var result: Score

    constructor ()
      ensures quiz == None && answers == map[] && !submitting && !showResult && result == Score(0, 0)
    {
      quiz := None;
      answers := map[];
      submitting := false;
      showResult := false;
      result := Score(0, 0);
    }

    function Total(): nat
      reads this
    {
      if quiz.Some? then |quiz.value.questions| else 0
    }

    /** The effect on the route id: the quiz with that id, if any. */
    method Load(repo: QuizRepo, id: Option<string>)
      modifies this`quiz
      ensures id.None? ==> quiz == None
      ensures id.Some? ==> quiz == FindById(repo.All(), id.value)
    {
      if id.Some? {
        quiz := repo.GetById(id.value);
      } else {
        quiz := None;
      }
    }

    /** handleSelect: the answer to one question is set or replaced. */
    method HandleSelect(questionId: string, value: string)
      modifies this`answers
      ensures answers == old(answers)[questionId := value]
      ensures questionId in answers && answers[questionId] == value
      ensures forall k :: k in old(answers) && k != questionId ==> k in answers && answers[k] == old(answers)[k]
    {
      answers := answers[questionId := value];
    }

    /** handleSubmit with the id and timestamp the browser supplies. It
        does nothing without a quiz or a user, before every question is
        answered or while a submission runs; otherwise the score is shown
        and one attempt is stored at the head of the results. */
    method HandleSubmit(user: Option<AuthUser>, store: ResultsStore, id: string, now: int)
      returns (stored: Option<QuizAttempt>)
      modifies this`submitting, this`showResult, this`result, store`results
      ensures var proceed := old(quiz).Some? && user.Some? && AllAnswered(old(Total()), old(answers)) && !old(submitting);
              && (!proceed ==> stored.None? && store.results == old(store.results)
                               && submitting == old(submitting) && showResult == old(showResult) && result == old(result))
              && (proceed ==> stored.Some? && store.All() == [stored.value] + old(store.All())
                              && showResult && !submitting)
      ensures stored.Some? ==>
                var q := quiz.value;
                var c := CountCorrect(q.questions, answers);
                && |q.questions| > 0
                && result == Score(c, |q.questions|)
                && stored.value == WithId(AttemptDraft(q.id, q.title, user.value.id, user.value.name,
                                                       |q.questions|, c, Percent(c, |q.questions|), now, now), id)
                && 0 <= stored.value.percent <= 100
    {
      if quiz.None? || user.None? || !AllAnswered(Total(), answers) || submitting {
        return None;
      }
      submitting := true;
      var q := quiz.value;
      var total := |q.questions|;
      var correct := CountCorrect(q.questions, answers);
      result := Score(correct, total);
      PercentBounds(correct, total);
      var draft := AttemptDraft(q.id, q.title, user.value.id, user.value.name,
                                total, correct, Percent(correct, total), now, now);
      var item := Add(store, draft, id);
      showResult := true;
      submitting := false;
      stored := Some(item);
    }
  }
}
