/** The results store: the persisted list of quiz attempts, newest first,
    with prepend-on-add and a per-user view. */
module ResultsService {
  import opened Common
  import opened Types

  /** The storage key tq_results. */
  class ResultsStore {
    var results: Slot<seq<QuizAttempt>>

    constructor (results: Slot<seq<QuizAttempt>>)
      ensures this.results == results
    {
      this.results := results;
    }

    /** readAll, which is what getAll returns. */
    function All(): seq<QuizAttempt>
      reads this
    {
      ReadList(results)
    }

    /** ResultsService.getByUser: a read that changes nothing. */
    function GetByUser(userId: string): (r: seq<QuizAttempt>)
      reads this
    {
      ByUser(All(), userId)
    }
  }

  /** The attempt { id, ...attempt } that add stores. */
  function WithId(draft: AttemptDraft, id: string): QuizAttempt
  {
    QuizAttempt(id, draft.quizId, draft.quizTitle, draft.userId, draft.userName,
                draft.total, draft.correct, draft.percent, draft.startedAt, draft.finishedAt)
  }

  /** An attempt without its id. */
  function DraftOf(a: QuizAttempt): AttemptDraft
  {
    AttemptDraft(a.quizId, a.quizTitle, a.userId, a.userName,
                 a.total, a.correct, a.percent, a.startedAt, a.finishedAt)
  }

  /** The stored item carries every field of the given attempt and the
      fresh id, and nothing else. */
  lemma WithIdKeepsFields(draft: AttemptDraft, id: string)
    ensures DraftOf(WithId(draft, id)) == draft && WithId(draft, id).id == id
  {
  }

  /** Every stored attempt is its own draft with its own id. */
  lemma WithIdOfDraft(a: QuizAttempt)
    ensures WithId(DraftOf(a), a.id) == a
  {
  }

  /** The attempts of one user, in stored order. */
  function ByUser(rows: seq<QuizAttempt>, userId: string): (r: seq<QuizAttempt>)
    ensures |r| <= |rows|
    ensures forall a :: a in r <==> a in rows && a.userId == userId
  {
    Filter(rows, (a: QuizAttempt) => a.userId == userId)
  }

  /** The per-user view keeps the stored order: the view of a concatenation
      is the concatenation of the views. */
  lemma ByUserKeepsOrder(front: seq<QuizAttempt>, back: seq<QuizAttempt>, userId: string)
    ensures ByUser(front + back, userId) == ByUser(front, userId) + ByUser(back, userId)
  {
    FilterAppend(front, back, (a: QuizAttempt) => a.userId == userId);
  }

  /** After add, the new attempt heads its user's view, followed by that
      user's earlier attempts; every other user's view is unchanged. */
  lemma ByUserAfterAdd(item: QuizAttempt, rows: seq<QuizAttempt>, userId: string)
    ensures ByUser([item] + rows, item.userId) == [item] + ByUser(rows, item.userId)
    ensures userId != item.userId ==> ByUser([item] + rows, userId) == ByUser(rows, userId)
  {
    FilterCons(item, rows, (a: QuizAttempt) => a.userId == item.userId);
    FilterCons(item, rows, (a: QuizAttempt) => a.userId == userId);
  }

  /** ResultsService.add with the id genId produced: the new attempt is put
      at the head of the stored list and returned. */
  method Add(store: ResultsStore, draft: AttemptDraft, id: string) returns (item: QuizAttempt)
    modifies store`results
    ensures item == WithId(draft, id)
    ensures store.All() == [item] + old(store.All())
    ensures |store.All()| == |old(store.All())| + 1
  {
    item := WithId(draft, id);
    var all := store.All();
    all := [item] + all;
    store.results := Holds(all);
  }
}
