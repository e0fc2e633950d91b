/** The catalogue page: the quiz list filtered by category and
    difficulty, split into pages of six, and the page number the filters
    and the list length keep in range. */
module Home {
  import opened Common
  import opened Types
  import opened Platform
  import opened QuizService
  import opened Seed

  const PerPage: nat := 6

  /** A category id, or 'all'. */
  datatype CatFilter = AnyCategory | CategoryIs(id: int)

  /** A difficulty, or 'all'. */
  datatype DiffFilter = AnyDifficulty | DifficultyIs(difficulty: Difficulty)

  predicate Matches(q: Quiz, cf: CatFilter, df: DiffFilter)
  {
    && (cf.AnyCategory? || q.categoryId == cf.id)
    && (df.AnyDifficulty? || q.difficulty == df.difficulty)
  }

  /** The filtered memo: the quizzes that match both filters. */
  function Filtered(qs: seq<Quiz>, cf: CatFilter, df: DiffFilter): (r: seq<Quiz>)
    ensures |r| <= |qs|
    ensures forall q :: q in r <==> q in qs && Matches(q, cf, df)
  {
    Filter(qs, (q: Quiz) => Matches(q, cf, df))
  }

  /** Filtering keeps the order of the list: filtering a concatenation
      concatenates the filtered parts. */
  lemma FilteredKeepsOrder(front: seq<Quiz>, back: seq<Quiz>, cf: CatFilter, df: DiffFilter)
    ensures Filtered(front + back, cf, df) == Filtered(front, cf, df) + Filtered(back, cf, df)
  {
    FilterAppend(front, back, (q: Quiz) => Matches(q, cf, df));
  }

  /** With both filters on 'all' every quiz is listed, in order. */
  lemma {:induction false} FilteredAllIsIdentity(qs: seq<Quiz>)
    ensures Filtered(qs, AnyCategory, AnyDifficulty) == qs
  {
    if qs != [] {
      FilterCons(qs[0], qs[1..], (q: Quiz) => Matches(q, AnyCategory, AnyDifficulty));
      FilteredAllIsIdentity(qs[1..]);
      assert [qs[0]] + qs[1..] == qs;
    }
  }

  /** pageCount = max(1, ceil(n / 6)). */
  function PageCount(n: nat): (r: nat)
    ensures r >= 1
    ensures n == 0 ==> r == 1
    ensures n > 0 ==> PerPage * (r - 1) < n <= PerPage * r
  {
    var c := (n + PerPage - 1) / PerPage;
    if c < 1 then 1 else c
  }

  /** Array.prototype.slice(start, end) for 0 <= start <= end. */
  function Slice<T>(s: seq<T>, start: nat, end: nat): (r: seq<T>)
    requires start <= end
    ensures |r| <= end - start
    ensures start <= |s| ==> r == s[start..Min(end, |s|)]
    ensures start >= |s| ==> r == []
  {
    if start >= |s| then [] else s[start..Min(end, |s|)]
  }

  /** The visible memo: the entries of page number page (from 1). */
  function Visible(f: seq<Quiz>, page: nat): (r: seq<Quiz>)
    requires page >= 1
    ensures |r| <= PerPage
  {
    var start := (page - 1) * PerPage;
    Slice(f, start, start + PerPage)
  }

  /** A page from 1 to pageCount is the block of at most six entries that
      starts at (page - 1) * 6, and it is not empty unless the list is. */
  lemma VisibleIsBlock(f: seq<Quiz>, page: nat)
    requires 1 <= page <= PageCount(|f|)
    ensures (page - 1) * PerPage <= |f|
    ensures Visible(f, page) == f[(page - 1) * PerPage..Min(page * PerPage, |f|)]
    ensures |f| > 0 ==> |Visible(f, page)| >= 1
  {
  }

  /** The pages 1..n one after another. */
  function Pages(f: seq<Quiz>, n: nat): seq<Quiz>
  {
    if n == 0 then [] else Pages(f, n - 1) + Visible(f, n)
  }

  lemma {:induction false} PagesArePrefix(f: seq<Quiz>, n: nat)
    ensures Pages(f, n) == f[..Min(n * PerPage, |f|)]
  {
    if n > 0 {
      PagesArePrefix(f, n - 1);
      var lo := Min((n - 1) * PerPage, |f|);
      var hi := Min(n * PerPage, |f|);
      assert Visible(f, n) == f[lo..hi];
      assert f[..lo] + f[lo..hi] == f[..hi];
    }
  }

  /** The pages 1..pageCount, one after another, are exactly the filtered
      list: every entry is on one page and in order. */
  lemma PaginationPartitions(f: seq<Quiz>)
    ensures Pages(f, PageCount(|f|)) == f
  {
    PagesArePrefix(f, PageCount(|f|));
  }

  /** The component state that the pagination logic reads and writes. */
  class HomePage {
    var loading: bool
    var quizzes: seq<Quiz>
    var categoryFilter: CatFilter
    var difficultyFilter: DiffFilter
    var page: nat

    /** The page number is one of the pages the list has. */
    ghost predicate Valid()
      reads this
    {
      1 <= page <= PageCount(|Filtered(quizzes, categoryFilter, difficultyFilter)|)
    }

    function PageTotal(): nat
      reads this
    {
      PageCount(|Filtered(quizzes, categoryFilter, difficultyFilter)|)
    }

    function Shown(): (r: seq<Quiz>)
      reads this
      requires Valid()
      ensures |r| <= PerPage
    {
      Visible(Filtered(quizzes, categoryFilter, difficultyFilter), page)
    }

    /** The initial state: loading, no quizzes, both filters 'all', page 1. */
    constructor ()
      ensures Valid() && loading && quizzes == []
      ensures categoryFilter == AnyCategory && difficultyFilter == AnyDifficulty && page == 1
    {
      loading := true;
      quizzes := [];
      categoryFilter := AnyCategory;
      difficultyFilter := AnyDifficulty;
      page := 1;
    }

    /** The effect on [page, pageCount]: a page past the end becomes the
        last page. */
    method ClampPage()
      requires page >= 1
      modifies this`page
      ensures page == (if old(page) > PageTotal() then PageTotal() else old(page))
      ensures Valid()
    {
      if page > PageTotal() {
        page := PageTotal();
      }
    }

    /** Choosing a category filter; the effect on the filters resets the
        page to 1. */
    method SetCategoryFilter(f: CatFilter)
      modifies this`categoryFilter, this`page
      ensures categoryFilter == f && page == 1 && Valid()
    {
      categoryFilter := f;
      page := 1;
    }

    /** Choosing a difficulty filter; the page is reset to 1. */
    method SetDifficultyFilter(f: DiffFilter)
      modifies this`difficultyFilter, this`page
      ensures difficultyFilter == f && page == 1 && Valid()
    {
      difficultyFilter := f;
      page := 1;
    }

    /** A click on one of the page buttons, which are numbered 1..pageCount. */
    method SelectPage(n: nat)
      requires 1 <= n <= PageTotal()
      modifies this`page
      ensures page == n && Valid()
    {
      page := n;
    }

    /** The mount effect: ensureSeededRobust runs, then the stored list is
        shown and loading ends; the clamp effect then keeps the page in
        range. */
    method Load(repo: QuizRepo, env: Env, tick: nat)
      requires Valid()
      modifies this`quizzes, this`loading, this`page, repo`quizzes, repo`seedFlag
      ensures IsSeeded(repo) && Extends(old(repo.All()), repo.All())
      ensures quizzes == repo.All() && !loading && Valid()
      ensures page == (if old(page) > PageTotal() then PageTotal() else old(page))
      ensures categoryFilter == old(categoryFilter) && difficultyFilter == old(difficultyFilter)
    {
      var attempts, fetches := EnsureSeededRobust(repo, env, tick);
      quizzes := repo.All();
      loading := false;
      ClampPage();
    }

    /** refreshList, called after a quiz is created: the stored list is
        read again and the first page is shown. */
    method RefreshList(repo: QuizRepo)
      modifies this`quizzes, this`page
      ensures quizzes == repo.All() && page == 1 && Valid()
    {
      quizzes := repo.All();
      page := 1;
    }
  }
}
