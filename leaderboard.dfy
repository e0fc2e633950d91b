/** The mini leaderboard of one quiz: its attempts ranked by percent
    (higher first), ties broken by the earlier finish, and the first three
    shown. Array.prototype.sort is modelled by a stable insertion sort on
    values. */
module Leaderboard {
  import opened Common
  import opened Types
  import opened ResultsService

  const ShownRows: nat := 3

  /** The comparator b.percent - a.percent || finishedAt(a) - finishedAt(b)
      is not positive: a may sort before b. */
  predicate RanksNoLater(a: QuizAttempt, b: QuizAttempt)
  {
    a.percent > b.percent || (a.percent == b.percent && a.finishedAt <= b.finishedAt)
  }

  /** The comparator is negative: a must sort before b. */
  predicate RanksAhead(a: QuizAttempt, b: QuizAttempt)
  {
    a.percent > b.percent || (a.percent == b.percent && a.finishedAt < b.finishedAt)
  }

  /** Every entry ranks no later than every entry after it. */
  ghost predicate Ranked(s: seq<QuizAttempt>)
  {
    forall i, j :: 0 <= i < j < |s| ==> RanksNoLater(s[i], s[j])
  }

  lemma RanksNoLaterTransitive(a: QuizAttempt, b: QuizAttempt, c: QuizAttempt)
    requires RanksNoLater(a, b) && RanksNoLater(b, c)
    ensures RanksNoLater(a, c)
  {
  }

  /** x placed before the first entry it ranks no later than. */
  function Insert(x: QuizAttempt, s: seq<QuizAttempt>): (r: seq<QuizAttempt>)
    ensures multiset(r) == multiset(s) + multiset{x}
    ensures |r| == |s| + 1
  {
    if s == [] then [x]
    else if RanksNoLater(x, s[0]) then [x] + s
    else
      assert s == [s[0]] + s[1..];
      [s[0]] + Insert(x, s[1..])
  }

  /** An entry ranking no later than every entry of a ranked list can
      head it. */
  lemma RankedCons(x: QuizAttempt, s: seq<QuizAttempt>)
    requires Ranked(s)
    requires forall k :: 0 <= k < |s| ==> RanksNoLater(x, s[k])
    ensures Ranked([x] + s)
  {
    var r := [x] + s;
    forall i, j | 0 <= i < j < |r|
      ensures RanksNoLater(r[i], r[j])
    {
      assert r[j] == s[j - 1];
      if i > 0 {
        assert r[i] == s[i - 1];
      }
    }
  }

  /** The tail of a ranked list is ranked. */
  lemma RankedTail(s: seq<QuizAttempt>)
    requires Ranked(s) && s != []
    ensures Ranked(s[1..])
  {
    var t := s[1..];
    forall i, j | 0 <= i < j < |t|
      ensures RanksNoLater(t[i], t[j])
    {
      assert t[i] == s[i + 1] && t[j] == s[j + 1];
    }
  }

  /** Inserting into a ranked list keeps it ranked. */
  lemma {:induction false} InsertKeepsRanked(x: QuizAttempt, s: seq<QuizAttempt>)
    requires Ranked(s)
    ensures Ranked(Insert(x, s))
  {
    if s == [] {
    } else if RanksNoLater(x, s[0]) {
      forall k | 0 <= k < |s|
        ensures RanksNoLater(x, s[k])
      {
        if k > 0 {
          RanksNoLaterTransitive(x, s[0], s[k]);
        }
      }
      RankedCons(x, s);
    } else {
      var tail := s[1..];
      RankedTail(s);
      InsertKeepsRanked(x, tail);
      var rest := Insert(x, tail);
      forall k | 0 <= k < |rest|
        ensures RanksNoLater(s[0], rest[k])
      {
        var y := rest[k];
        assert y in multiset(rest);
        if y != x {
          assert y in multiset(tail);
          var m :| 0 <= m < |tail| && tail[m] == y;
          assert y == s[m + 1];
        }
      }
      RankedCons(s[0], rest);
    }
  }

  /** The sort of the quiz's attempts. */
  function SortRanked(s: seq<QuizAttempt>): (r: seq<QuizAttempt>)
    ensures multiset(r) == multiset(s)
    ensures |r| == |s|
    ensures Ranked(r)
  {
    if s == [] then []
    else
      assert s == [s[0]] + s[1..];
      var t := SortRanked(s[1..]);
      InsertKeepsRanked(s[0], t);
      Insert(s[0], t)
  }

  /** The attempts at one quiz, in stored order. */
  function OfQuiz(all: seq<QuizAttempt>, quizId: string): (r: seq<QuizAttempt>)
    ensures forall a :: a in r <==> a in all && a.quizId == quizId
  {
    Filter(all, (a: QuizAttempt) => a.quizId == quizId)
  }

  /** The quiz's attempts in leaderboard order. */
  function Ranking(all: seq<QuizAttempt>, quizId: string): (r: seq<QuizAttempt>)
    ensures multiset(r) == multiset(OfQuiz(all, quizId)) && Ranked(r)
  {
    SortRanked(OfQuiz(all, quizId))
  }

  /** The rows the leaderboard shows: all.slice(0, 3) of the sorted list. */
  function TopAttempts(all: seq<QuizAttempt>, quizId: string): (r: seq<QuizAttempt>)
    ensures |r| == Min(ShownRows, |Ranking(all, quizId)|)
    ensures Ranking(all, quizId) == r + Ranking(all, quizId)[|r|..]
  {
    var ranking := Ranking(all, quizId);
    var r := ranking[..Min(ShownRows, |ranking|)];
    assert ranking == r + ranking[|r|..];
    r
  }

  /** A prefix of a ranked list is ranked. */
  lemma RankedPrefix(s: seq<QuizAttempt>, n: nat)
    requires Ranked(s) && n <= |s|
    ensures Ranked(s[..n])
  {
    forall i, j | 0 <= i < j < n
      ensures RanksNoLater(s[..n][i], s[..n][j])
    {
      assert s[..n][i] == s[i] && s[..n][j] == s[j];
    }
  }

  /** The shown rows and the rows left out are the quiz's attempts. */
  lemma TopSplit(all: seq<QuizAttempt>, quizId: string)
    ensures var top := TopAttempts(all, quizId);
            multiset(OfQuiz(all, quizId)) == multiset(top) + multiset(Ranking(all, quizId)[|top|..])
  {
    var top := TopAttempts(all, quizId);
    var ranking := Ranking(all, quizId);
    calc {
      multiset(OfQuiz(all, quizId));
      multiset(ranking);
      multiset(top + ranking[|top|..]);
      multiset(top) + multiset(ranking[|top|..]);
    }
  }

  /** At most three rows, all of the quiz, ranked, and taken from the
      quiz's attempts. */
  lemma TopAttemptsShape(all: seq<QuizAttempt>, quizId: string)
    ensures var top := TopAttempts(all, quizId);
            && |top| == Min(ShownRows, |OfQuiz(all, quizId)|)
            && (forall k :: 0 <= k < |top| ==> top[k].quizId == quizId && top[k] in all)
            && Ranked(top)
            && multiset(top) <= multiset(OfQuiz(all, quizId))
  {
    var top := TopAttempts(all, quizId);
    var ranking := Ranking(all, quizId);
    assert |ranking| == |OfQuiz(all, quizId)| by {
      assert |multiset(ranking)| == |ranking|;
    }
    RankedPrefix(ranking, |top|);
    assert top == ranking[..|top|];
    TopSplit(all, quizId);
    forall k | 0 <= k < |top|
      ensures top[k].quizId == quizId && top[k] in all
    {
      assert top[k] in multiset(OfQuiz(all, quizId));
    }
  }

  /** No attempt at the quiz that is left out ranks strictly ahead of a
      shown one. */
  lemma NoOmittedAttemptRanksAhead(all: seq<QuizAttempt>, quizId: string, a: QuizAttempt)
    requires a in multiset(OfQuiz(all, quizId)) - multiset(TopAttempts(all, quizId))
    ensures forall k :: 0 <= k < |TopAttempts(all, quizId)| ==> !RanksAhead(a, TopAttempts(all, quizId)[k])
  {
    var ranking := Ranking(all, quizId);
    var top := TopAttempts(all, quizId);
    var rest := ranking[|top|..];
    TopSplit(all, quizId);
    assert a in multiset(rest);
    var m :| 0 <= m < |rest| && rest[m] == a;
    forall k | 0 <= k < |top|
      ensures !RanksAhead(a, top[k])
    {
      assert top[k] == ranking[k] && a == ranking[|top| + m];
      assert RanksNoLater(ranking[k], ranking[|top| + m]);
    }
  }
}
