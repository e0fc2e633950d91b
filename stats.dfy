/** The statistics page: a signed-in user's attempts and the three
    figures shown for them (attempts played, average and best percent). */
module Stats {
  import opened Common
  import opened Types
  import opened ResultsService

  datatype Totals = Totals(played: nat, avgPercent: int, bestPercent: int)

  /** rows.reduce((acc, r) => acc + r.percent, 0). */
  function SumPercent(rows: seq<QuizAttempt>): int
  {
    if rows == [] then 0 else SumPercent(rows[..|rows| - 1]) + rows[|rows| - 1].percent
  }

  /** rows.reduce((b, r) => Math.max(b, r.percent), 0): the largest percent,
      or 0 when that is larger. */
  function BestPercent(rows: seq<QuizAttempt>): (r: int)
    ensures r >= 0
    ensures forall k :: 0 <= k < |rows| ==> rows[k].percent <= r
    ensures r == 0 || exists k :: 0 <= k < |rows| && rows[k].percent == r
  {
    if rows == [] then 0
    else
      var front := rows[..|rows| - 1];
      var b := BestPercent(front);
      assert forall k :: 0 <= k < |front| ==> front[k] == rows[k];
      Max(b, rows[|rows| - 1].percent)
  }

  /** The totals memo. */
  function StatTotals(rows: seq<QuizAttempt>): Totals
  {
    if |rows| == 0 then Totals(0, 0, 0)
    else Totals(|rows|, RoundDiv(SumPercent(rows), |rows|), BestPercent(rows))
  }

  /** No attempts give zeros; otherwise played counts the attempts and the
      best percent is one of theirs when none is negative. */
  lemma TotalsShape(rows: seq<QuizAttempt>)
    ensures rows == [] ==> StatTotals(rows) == Totals(0, 0, 0)
    ensures StatTotals(rows).played == |rows|
    ensures forall k :: 0 <= k < |rows| ==> rows[k].percent <= StatTotals(rows).bestPercent
    ensures rows != [] && (forall k :: 0 <= k < |rows| ==> rows[k].percent >= 0) ==>
              exists k :: 0 <= k < |rows| && rows[k].percent == StatTotals(rows).bestPercent
  {
    if rows != [] && (forall k :: 0 <= k < |rows| ==> rows[k].percent >= 0) {
      var b := BestPercent(rows);
      if b == 0 {
        assert rows[0].percent <= 0;
      }
    }
  }

  /** Percents within [lo, hi] add up to within [n * lo, n * hi]. */
  lemma {:induction false} SumWithin(rows: seq<QuizAttempt>, lo: int, hi: int)
    requires forall k :: 0 <= k < |rows| ==> lo <= rows[k].percent <= hi
    ensures |rows| * lo <= SumPercent(rows) <= |rows| * hi
  {
    if rows != [] {
      var front := rows[..|rows| - 1];
      assert forall k :: 0 <= k < |front| ==> front[k] == rows[k];
      SumWithin(front, lo, hi);
      assert |rows| * lo == |front| * lo + lo;
      assert |rows| * hi == |front| * hi + hi;
    }
  }

  /** The rounded average lies between the smallest and the largest
      percent (any bounds lo and hi on all of them). */
  lemma AverageWithin(rows: seq<QuizAttempt>, lo: int, hi: int)
    requires rows != []
    requires forall k :: 0 <= k < |rows| ==> lo <= rows[k].percent <= hi
    ensures lo <= StatTotals(rows).avgPercent <= hi
  {
    SumWithin(rows, lo, hi);
    RoundDivWithin(SumPercent(rows), |rows|, lo, hi);
  }

  /** The rows state of the page. */
  class StatsPage {
    var rows: seq<QuizAttempt>

    constructor ()
      ensures rows == []
    {
      rows := [];
    }

    function Figures(): Totals
      reads this
    {
      StatTotals(rows)
    }

    /** The effect on the user: with no user the rows are left as they
        are; otherwise they become the user's attempts. */
    method Load(user: Option<AuthUser>, store: ResultsStore)
      modifies this
      ensures user.None? ==> rows == old(rows)
      ensures user.Some? ==> rows == store.GetByUser(user.value.id)
      ensures user.Some? ==> forall a :: a in rows <==> a in store.All() && a.userId == user.value.id
    {
      if user.Some? {
        rows := store.GetByUser(user.value.id);
      }
    }
  }
}
