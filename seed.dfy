/** The catalogue seeding engine: a one-time, best-effort bootstrap that
    creates one quiz per (category, difficulty) combination, titled
    "{category name} ({difficulty})", with a descending amount fallback,
    a coverage pass over all categories and up to three extra rounds while
    the catalogue holds fewer than 20 quizzes. A persisted flag records
    completion. */
module Seed {
  import opened Common
  import opened Text
  import opened Types
  import opened OpenTdb
  import opened Platform
  import opened QuizService

  const TargetMin: nat := 20
  const AmountTry: seq<int> := [10, 9, 8, 7, 6, 5]
  /** Extra rounds run while round < 4, starting at round 1. */
  const MaxRounds: nat := 3
  /** The most creation attempts one run can make. */
  const MaxAttempts: nat := 21 * (1 + MaxRounds)

  // ---------------------------------------------------------------------
  // The flag

  predicate IsSeeded(repo: QuizRepo)
    reads repo
  {
    repo.seedFlag == Some("1")
  }

  method MarkSeeded(repo: QuizRepo)
    modifies repo`seedFlag
    ensures repo.seedFlag == Some("1")
  {
    repo.seedFlag := Some("1");
  }

  method ClearSeedFlag(repo: QuizRepo)
    modifies repo`seedFlag
    ensures repo.seedFlag == None
  {
    repo.seedFlag := None;
  }

  /** resetSeed: removes the flag and nothing else. */
  method ResetSeed(repo: QuizRepo)
    modifies repo`seedFlag
    ensures repo.seedFlag == None && !IsSeeded(repo)
    ensures repo.quizzes == old(repo.quizzes)
  {
    ClearSeedFlag(repo);
  }

  // ---------------------------------------------------------------------
  // Titles and difficulties

  predicate SameTitle(a: string, b: string)
  {
    Lower(a) == Lower(b)
  }

  /** existsByTitle: some stored quiz has the title, ignoring case. */
  function ExistsByTitle(qs: seq<Quiz>, title: string): (b: bool)
    ensures b <==> exists k :: 0 <= k < |qs| && SameTitle(qs[k].title, title)
  {
    if qs == [] then false
    else SameTitle(qs[0].title, title) || ExistsByTitle(qs[1..], title)
  }

  /** No two stored quizzes have titles that are equal ignoring case. */
  ghost predicate NoDuplicateTitles(qs: seq<Quiz>)
  {
    forall i, j :: 0 <= i < j < |qs| ==> !SameTitle(qs[i].title, qs[j].title)
  }

  function PickDifficulty(index: nat): Difficulty
  {
    [Easy, Medium, Hard][index % 3]
  }

  /** The rotation: index 0, 1, 2 give easy, medium, hard; it repeats with
      period 3, so any three consecutive offsets give all three. */
  lemma PickDifficultyRotation(i: nat)
    ensures PickDifficulty(0) == Easy && PickDifficulty(1) == Medium && PickDifficulty(2) == Hard
    ensures PickDifficulty(i + 3) == PickDifficulty(i)
    ensures {PickDifficulty(i), PickDifficulty(i + 1), PickDifficulty(i + 2)} == {Easy, Medium, Hard}
  {
    assert (i + 3) % 3 == i % 3;
    var r := i % 3;
    assert (i + 1) % 3 == (r + 1) % 3 && (i + 2) % 3 == (r + 2) % 3;
  }

  /** The fixed title of a seeded combination. */
  function SeedTitle(categoryId: int, d: Difficulty): string
  {
    CategoryNameById(categoryId) + " (" + DifficultyText(d) + ")"
  }

  /** Within one category the title tells the difficulty apart, so each
      combination has a title of its own. */
  lemma SeedTitleDistinct(categoryId: int, d1: Difficulty, d2: Difficulty)
    ensures SeedTitle(categoryId, d1) == SeedTitle(categoryId, d2) <==> d1 == d2
  {
    var prefix := CategoryNameById(categoryId) + " (";
    if SeedTitle(categoryId, d1) == SeedTitle(categoryId, d2) {
      var t1, t2 := DifficultyText(d1) + ")", DifficultyText(d2) + ")";
      assert SeedTitle(categoryId, d1) == prefix + t1;
      assert SeedTitle(categoryId, d2) == prefix + t2;
      assert t1 == SeedTitle(categoryId, d1)[|prefix|..];
      assert t2 == SeedTitle(categoryId, d2)[|prefix|..];
      assert t1[0] == DifficultyText(d1)[0] && t2[0] == DifficultyText(d2)[0];
    }
  }

  function SeedInput(categoryId: int, d: Difficulty, amount: int): CreateQuizInput
  {
    CreateQuizInput(SeedTitle(categoryId, d), categoryId, d, amount)
  }

  function SeedRequest(categoryId: int, d: Difficulty, k: nat): Request
    requires k < |AmountTry|
  {
    Request(AmountTry[k], categoryId, d)
  }

  /** The first position at or after k in AmountTry whose request the
      source answers usably. */
  function FirstAvailable(env: Env, categoryId: int, d: Difficulty, k: nat): (r: Option<nat>)
    requires k <= |AmountTry|
    ensures r.Some? ==> k <= r.value < |AmountTry| && Usable(env.api(SeedRequest(categoryId, d, r.value)))
    ensures r.Some? ==> forall m :: k <= m < r.value ==> !Usable(env.api(SeedRequest(categoryId, d, m)))
    ensures r.None? ==> forall m :: k <= m < |AmountTry| ==> !Usable(env.api(SeedRequest(categoryId, d, m)))
    decreases |AmountTry| - k
  {
    if k == |AmountTry| then None
    else if Usable(env.api(SeedRequest(categoryId, d, k))) then Some(k)
    else FirstAvailable(env, categoryId, d, k + 1)
  }

  /** The first usable position is the one after a run of unusable ones. */
  lemma {:induction false} FirstAvailableAt(env: Env, categoryId: int, d: Difficulty, j: nat, k: nat)
    requires j <= k < |AmountTry|
    requires forall m :: j <= m < k ==> !Usable(env.api(SeedRequest(categoryId, d, m)))
    requires Usable(env.api(SeedRequest(categoryId, d, k)))
    ensures FirstAvailable(env, categoryId, d, j) == Some(k)
    decreases k - j
  {
    if j < k {
      FirstAvailableAt(env, categoryId, d, j + 1, k);
    }
  }

  /** The combination counts as covered: a quiz with its title exists, or
      the source has no usable answer for any amount tried. */
  predicate Covered(qs: seq<Quiz>, env: Env, categoryId: int, d: Difficulty)
  {
    ExistsByTitle(qs, SeedTitle(categoryId, d)) || FirstAvailable(env, categoryId, d, 0).None?
  }

  // ---------------------------------------------------------------------
  // How seeding changes the quiz list

  /** One attempt either leaves the list alone or puts one seed quiz at its
      head whose title was not there yet. */
  predicate SeedStep(before: seq<Quiz>, after: seq<Quiz>)
  {
    after == before ||
    (|after| == |before| + 1 && after[1..] == before
     && after[0].createdBy == SeedCreator && !ExistsByTitle(before, after[0].title))
  }

  /** qs is q0 with seed quizzes put in front of it. */
  predicate Extends(q0: seq<Quiz>, qs: seq<Quiz>)
  {
    |q0| <= |qs| && qs[|qs| - |q0|..] == q0
    && forall k :: 0 <= k < |qs| - |q0| ==> qs[k].createdBy == SeedCreator
  }

  lemma {:induction false} SeedStepKeeps(q0: seq<Quiz>, before: seq<Quiz>, after: seq<Quiz>)
    requires Extends(q0, before) && SeedStep(before, after)
    ensures Extends(q0, after)
    ensures |before| <= |after| <= |before| + 1
    ensures NoDuplicateTitles(before) ==> NoDuplicateTitles(after)
    ensures forall t :: ExistsByTitle(before, t) ==> ExistsByTitle(after, t)
  {
    if after != before {
      assert after == [after[0]] + before;
      assert after[|after| - |q0|..] == before[|before| - |q0|..];
      if NoDuplicateTitles(before) {
        forall i, j | 0 <= i < j < |after| ensures !SameTitle(after[i].title, after[j].title) {
          if i == 0 {
            assert after[j] == before[j - 1];
            if SameTitle(after[0].title, before[j - 1].title) {
              assert SameTitle(before[j - 1].title, after[0].title);
              assert false;
            }
          } else {
            assert after[i] == before[i - 1] && after[j] == before[j - 1];
          }
        }
      }
      forall t | ExistsByTitle(before, t) ensures ExistsByTitle(after, t) {
        var k :| 0 <= k < |before| && SameTitle(before[k].title, t);
        assert after[k + 1] == before[k];
      }
    }
  }

  /** A run's list is unchanged or grown at the head by seed quizzes. */
  lemma ExtendsRefl(qs: seq<Quiz>)
    ensures Extends(qs, qs)
  {
  }

  /** after is before with one seed quiz for the combination, requested
      with the given amount, at its head. */
  predicate AddedSeedQuiz(before: seq<Quiz>, after: seq<Quiz>, categoryId: int, d: Difficulty, amount: int)
  {
    && |after| == |before| + 1 && after[1..] == before
    && after[0].title == SeedTitle(categoryId, d)
    && after[0].categoryId == categoryId
    && after[0].difficulty == d
    && after[0].amount == amount
    && after[0].createdBy == SeedCreator
  }

  // ---------------------------------------------------------------------
  // The engine

  /** One pass of the fallback loop: createFromOpenTDB with amount
      AmountTry[k], authored by the seed identity. */
  method TryAmount(repo: QuizRepo, categoryId: int, difficulty: Difficulty, k: nat, env: Env, tick: nat)
    returns (ok: bool)
    requires k < |AmountTry|
    modifies repo`quizzes
    ensures ok <==> Usable(env.api(SeedRequest(categoryId, difficulty, k)))
    ensures !ok ==> repo.quizzes == old(repo.quizzes)
    ensures ok ==> AddedSeedQuiz(old(repo.All()), repo.All(), categoryId, difficulty, AmountTry[k])
  {
    var input := SeedInput(categoryId, difficulty, AmountTry[k]);
    assert RequestFor(input) == SeedRequest(categoryId, difficulty, k);
    var r := CreateFromOpenTdb(repo, input, SeedCreator, env, tick);
    ok := r.Success?;
  }

  /** The loop of tryCreateWithFallback: amounts 10, 9, ..., 5 in order
      until one creation succeeds; attempt k uses tick + k. */
  method TryAmounts(repo: QuizRepo, categoryId: int, difficulty: Difficulty, env: Env, tick: nat)
    returns (ok: bool, fetches: nat)
    modifies repo`quizzes
    ensures match FirstAvailable(env, categoryId, difficulty, 0)
            case None => !ok && fetches == |AmountTry| && repo.quizzes == old(repo.quizzes)
            case Some(k) => ok && fetches == k + 1 && AddedSeedQuiz(old(repo.All()), repo.All(), categoryId, difficulty, AmountTry[k])
  {
    var k := 0;
    while k < |AmountTry|
      invariant 0 <= k <= |AmountTry|
      invariant repo.quizzes == old(repo.quizzes)
      invariant forall m :: 0 <= m < k ==> !Usable(env.api(SeedRequest(categoryId, difficulty, m)))
    {
      var created := TryAmount(repo, categoryId, difficulty, k, env, tick + k);
      if created {
        FirstAvailableAt(env, categoryId, difficulty, 0, k);
        return true, k + 1;
      }
      k := k + 1;
    }
    return false, |AmountTry|;
  }

  /** tryCreateWithFallback issued at a tick: nothing to do when a quiz with
      the title exists already (compared ignoring case); otherwise the
      amount fallback, which adds at most one seed quiz. */
  method TryCreateWithFallback(repo: QuizRepo, categoryId: int, difficulty: Difficulty, env: Env, tick: nat)
    returns (ok: bool, fetches: nat)
    modifies repo`quizzes
    ensures fetches <= |AmountTry|
    ensures SeedStep(old(repo.All()), repo.All())
    ensures ok ==> ExistsByTitle(repo.All(), SeedTitle(categoryId, difficulty))
    ensures !ok ==> FirstAvailable(env, categoryId, difficulty, 0).None? && repo.quizzes == old(repo.quizzes)
    ensures ExistsByTitle(old(repo.All()), SeedTitle(categoryId, difficulty)) ==>
              ok && fetches == 0 && repo.quizzes == old(repo.quizzes)
    ensures !ExistsByTitle(old(repo.All()), SeedTitle(categoryId, difficulty)) ==>
              match FirstAvailable(env, categoryId, difficulty, 0)
              case None => !ok && fetches == |AmountTry|
              case Some(k) => ok && fetches == k + 1 && AddedSeedQuiz(old(repo.All()), repo.All(), categoryId, difficulty, AmountTry[k])
  {
    var title := SeedTitle(categoryId, difficulty);
    if ExistsByTitle(repo.All(), title) {
      return true, 0;
    }
    ok, fetches := TryAmounts(repo, categoryId, difficulty, env, tick);
    if ok {
      assert SameTitle(repo.All()[0].title, title);
    }
  }

  /** The combinations a pass with difficulty offset round attempts, for
      the categories with index below n, are all covered: category i with
      pickDifficulty(i + round). The coverage pass has offset 0. */
  predicate CoveredRound(qs: seq<Quiz>, env: Env, round: nat, n: nat)
    requires n <= |Categories|
  {
    forall i :: 0 <= i < n ==> CoveredAt(qs, env, round, i)
  }

  /** Category i's combination in the pass with offset round is covered. */
  predicate CoveredAt(qs: seq<Quiz>, env: Env, round: nat, i: nat)
    requires i < |Categories|
  {
    Covered(qs, env, Categories[i].id, PickDifficulty(i + round))
  }

  lemma CoveredKept(before: seq<Quiz>, after: seq<Quiz>, env: Env, round: nat, n: nat)
    requires n <= |Categories|
    requires CoveredRound(before, env, round, n)
    requires forall t :: ExistsByTitle(before, t) ==> ExistsByTitle(after, t)
    ensures CoveredRound(after, env, round, n)
  {
    forall i | 0 <= i < n ensures CoveredAt(after, env, round, i) {
      assert CoveredAt(before, env, round, i);
    }
  }

  lemma ExtendsTrans(a: seq<Quiz>, b: seq<Quiz>, c: seq<Quiz>)
    requires Extends(a, b) && Extends(b, c)
    ensures Extends(a, c)
  {
    assert c[|c| - |a|..] == c[|c| - |b|..][|b| - |a|..];
  }

  /** The first loop of ensureSeededRobust: category i with difficulty
      pickDifficulty(i); total is the list length after the pass. */
  method CoveragePass(repo: QuizRepo, env: Env, tick: nat) returns (total: nat, fetches: nat)
    modifies repo`quizzes
    ensures total == |repo.All()| && fetches <= |AmountTry| * |Categories|
    ensures Extends(old(repo.All()), repo.All()) && |repo.All()| <= |old(repo.All())| + |Categories|
    ensures NoDuplicateTitles(old(repo.All())) ==> NoDuplicateTitles(repo.All())
    ensures CoveredRound(repo.All(), env, 0, |Categories|)
  {
    ghost var q0 := repo.All();
    ExtendsRefl(q0);
    assert |AmountTry| == 6;
    total, fetches := |repo.All()|, 0;
    for i := 0 to |Categories|
      invariant fetches <= |AmountTry| * i
      invariant total == |repo.All()|
      invariant Extends(q0, repo.All()) && |repo.All()| <= |q0| + i
      invariant NoDuplicateTitles(q0) ==> NoDuplicateTitles(repo.All())
      invariant CoveredRound(repo.All(), env, 0, i)
    {
      var category := Categories[i];
      var difficulty := PickDifficulty(i);
      ghost var before := repo.All();
      var ok, f := TryCreateWithFallback(repo, category.id, difficulty, env, tick + fetches);
      SeedStepKeeps(q0, before, repo.All());
      CoveredKept(before, repo.All(), env, 0, i);
      assert CoveredAt(repo.All(), env, 0, i);
      CoveredNext(repo.All(), env, 0, i);
      if ok {
        total := |repo.All()|;
      }
      fetches := fetches + f;
    }
  }

  /** One extra round of ensureSeededRobust: category i with difficulty
      pickDifficulty(i + round), stopping as soon as total reaches the
      target. */
  method RotationRound(repo: QuizRepo, env: Env, tick: nat, round: nat, total0: nat)
    returns (total: nat, attempts: nat, fetches: nat)
    requires total0 == |repo.All()|
    modifies repo`quizzes
    ensures total == |repo.All()|
    ensures attempts <= |Categories| && fetches <= |AmountTry| * attempts
    ensures total >= TargetMin || attempts == |Categories|
    ensures total <= Max(total0, TargetMin)
    ensures Extends(old(repo.All()), repo.All()) && |repo.All()| <= |old(repo.All())| + attempts
    ensures NoDuplicateTitles(old(repo.All())) ==> NoDuplicateTitles(repo.All())
    ensures forall t :: ExistsByTitle(old(repo.All()), t) ==> ExistsByTitle(repo.All(), t)
    ensures attempts <= |Categories| && CoveredRound(repo.All(), env, round, attempts)
  {
    ghost var q0 := repo.All();
    ExtendsRefl(q0);
    assert |AmountTry| == 6;
    total, attempts, fetches := total0, 0, 0;
    var i := 0;
    while i < |Categories| && total < TargetMin
      invariant 0 <= i <= |Categories| && attempts == i && fetches <= |AmountTry| * attempts
      invariant total == |repo.All()| && total <= Max(total0, TargetMin)
      invariant Extends(q0, repo.All()) && |repo.All()| <= |q0| + attempts
      invariant NoDuplicateTitles(q0) ==> NoDuplicateTitles(repo.All())
      invariant forall t :: ExistsByTitle(q0, t) ==> ExistsByTitle(repo.All(), t)
      invariant CoveredRound(repo.All(), env, round, i)
    {
      var category := Categories[i];
      var difficulty := PickDifficulty(i + round);
      ghost var before := repo.All();
      var ok, f := TryCreateWithFallback(repo, category.id, difficulty, env, tick + fetches);
      SeedStepKeeps(q0, before, repo.All());
      CoveredKept(before, repo.All(), env, round, i);
      assert CoveredAt(repo.All(), env, round, i);
      CoveredNext(repo.All(), env, round, i);
      if ok {
        total := |repo.All()|;
      }
      attempts, fetches := attempts + 1, fetches + f;
      i := i + 1;
    }
  }

  lemma CoveredNext(qs: seq<Quiz>, env: Env, round: nat, i: nat)
    requires i < |Categories|
    requires CoveredRound(qs, env, round, i) && CoveredAt(qs, env, round, i)
    ensures CoveredRound(qs, env, round, i + 1)
  {
  }

  /** Rounds completed before a later round stay covered through it. */
  lemma RoundsKept(before: seq<Quiz>, after: seq<Quiz>, env: Env, round: nat)
    requires forall t :: ExistsByTitle(before, t) ==> ExistsByTitle(after, t)
    requires forall r :: 1 <= r < round ==> CoveredRound(before, env, r, |Categories|)
    ensures forall r :: 1 <= r < round ==> CoveredRound(after, env, r, |Categories|)
  {
    forall r | 1 <= r < round ensures CoveredRound(after, env, r, |Categories|) {
      CoveredKept(before, after, env, r, |Categories|);
    }
  }

  /** The second loop of ensureSeededRobust, issued at a tick: rounds 1,
      2 and 3 while the catalogue holds fewer than TargetMin quizzes. When
      it ends below the target, every round ran through all categories. */
  method ExtraRounds(repo: QuizRepo, env: Env, tick: nat, total0: nat)
    returns (total: nat, attempts: nat, fetches: nat)
    requires total0 == |repo.All()|
    modifies repo`quizzes
    ensures total == |repo.All()|
    ensures attempts <= |Categories| * MaxRounds && fetches <= |AmountTry| * attempts
    ensures Extends(old(repo.All()), repo.All()) && |repo.All()| <= |old(repo.All())| + attempts
    ensures NoDuplicateTitles(old(repo.All())) ==> NoDuplicateTitles(repo.All())
    ensures forall t :: ExistsByTitle(old(repo.All()), t) ==> ExistsByTitle(repo.All(), t)
    ensures total0 < TargetMin ==> 0 < attempts
    ensures total <= Max(total0, TargetMin)
    ensures total0 >= TargetMin ==> attempts == 0 && fetches == 0 && repo.quizzes == old(repo.quizzes)
    ensures total < TargetMin ==> attempts == |Categories| * MaxRounds
    ensures total < TargetMin ==>
              forall round :: 1 <= round <= MaxRounds ==> CoveredRound(repo.All(), env, round, |Categories|)
  {
    ghost var q0 := repo.All();
    ExtendsRefl(q0);
    total, attempts, fetches := total0, 0, 0;
    var round := 1;
    while total < TargetMin && round < 4
      invariant 1 <= round <= 4
      invariant attempts <= |Categories| * (round - 1) && fetches <= |AmountTry| * attempts
      invariant total >= TargetMin || attempts == |Categories| * (round - 1)
      invariant total == |repo.All()|
      invariant Extends(q0, repo.All()) && |repo.All()| <= |q0| + attempts
      invariant NoDuplicateTitles(q0) ==> NoDuplicateTitles(repo.All())
      invariant forall t :: ExistsByTitle(q0, t) ==> ExistsByTitle(repo.All(), t)
      invariant total < TargetMin ==>
                  forall r :: 1 <= r < round ==> CoveredRound(repo.All(), env, r, |Categories|)
      invariant total0 < TargetMin && round > 1 ==> 0 < attempts
      invariant total <= Max(total0, TargetMin)
      invariant total0 >= TargetMin ==> attempts == 0 && fetches == 0 && repo.quizzes == old(repo.quizzes) && total == total0
      decreases 4 - round
    {
      ghost var before := repo.All();
      var a, f;
      total, a, f := RotationRound(repo, env, tick + fetches, round, total);
      ExtendsTrans(q0, before, repo.All());
      RoundsKept(before, repo.All(), env, round);
      if total < TargetMin {
        assert CoveredRound(repo.All(), env, round, |Categories|);
        RoundsNext(repo.All(), env, round);
      }
      attempts, fetches := attempts + a, fetches + f;
      round := round + 1;
    }
  }

  lemma RoundsNext(qs: seq<Quiz>, env: Env, round: nat)
    requires forall r :: 1 <= r < round ==> CoveredRound(qs, env, r, |Categories|)
    requires CoveredRound(qs, env, round, |Categories|)
    ensures forall r :: 1 <= r < round + 1 ==> CoveredRound(qs, env, r, |Categories|)
  {
    forall r | 1 <= r < round + 1 ensures CoveredRound(qs, env, r, |Categories|) {
      if r < round {
      } else {
        assert r == round;
      }
    }
  }

  /** What one full run of both loops guarantees about the quiz list qs
      it leaves, starting from q0: it grew at the head by seed quizzes, at
      most one per attempt, with no duplicate title; every coverage
      combination is covered; and a run that ends below the target made
      every attempt, so each extra round covered all its combinations. */
  ghost predicate SeedRun(q0: seq<Quiz>, qs: seq<Quiz>, env: Env, attempts: nat, fetches: nat)
  {
    && |Categories| <= attempts <= MaxAttempts && fetches <= |AmountTry| * attempts
    && Extends(q0, qs) && |qs| <= |q0| + attempts
    && (NoDuplicateTitles(q0) ==> NoDuplicateTitles(qs))
    && CoveredRound(qs, env, 0, |Categories|)
    && (|qs| < TargetMin ==> attempts == MaxAttempts)
    && (|qs| < TargetMin ==> forall round :: 1 <= round <= MaxRounds ==> CoveredRound(qs, env, round, |Categories|))
  }

  /** The body of ensureSeededRobust after the flag check: the coverage
      pass, then the extra rounds. */
  method SeedCatalogue(repo: QuizRepo, env: Env, tick: nat) returns (attempts: nat, fetches: nat)
    modifies repo`quizzes
    ensures SeedRun(old(repo.All()), repo.All(), env, attempts, fetches)
    ensures |repo.All()| > TargetMin ==> attempts == |Categories|
    ensures |repo.All()| <= Max(|old(repo.All())| + |Categories|, TargetMin)
  {
    assert |Categories| == 21;
    ghost var q0 := repo.All();
    var total, a, f;
    total, fetches := CoveragePass(repo, env, tick);
    ghost var covered := repo.All();
    var total1;
    total1, a, f := ExtraRounds(repo, env, tick + fetches, total);
    SeedRunFromPasses(q0, covered, repo.All(), env, fetches, a, f);
    attempts, fetches := |Categories| + a, fetches + f;
  }

  /** The guarantees of the coverage pass and of the extra rounds, taken
      together, are those of a whole run. */
  lemma SeedRunFromPasses(q0: seq<Quiz>, covered: seq<Quiz>, qs: seq<Quiz>, env: Env,
                          coverFetches: nat, attempts: nat, fetches: nat)
    requires coverFetches <= |AmountTry| * |Categories|
    requires Extends(q0, covered) && |covered| <= |q0| + |Categories|
    requires NoDuplicateTitles(q0) ==> NoDuplicateTitles(covered)
    requires CoveredRound(covered, env, 0, |Categories|)
    requires attempts <= |Categories| * MaxRounds && fetches <= |AmountTry| * attempts
    requires Extends(covered, qs) && |qs| <= |covered| + attempts
    requires NoDuplicateTitles(covered) ==> NoDuplicateTitles(qs)
    requires forall t :: ExistsByTitle(covered, t) ==> ExistsByTitle(qs, t)
    requires |qs| <= Max(|covered|, TargetMin)
    requires |covered| >= TargetMin ==> attempts == 0
    requires |qs| < TargetMin ==> attempts == |Categories| * MaxRounds
    requires |qs| < TargetMin ==>
               forall round :: 1 <= round <= MaxRounds ==> CoveredRound(qs, env, round, |Categories|)
    ensures SeedRun(q0, qs, env, |Categories| + attempts, coverFetches + fetches)
    ensures |qs| > TargetMin ==> attempts == 0
    ensures |qs| <= Max(|q0| + |Categories|, TargetMin)
  {
    assert |AmountTry| == 6 && |Categories| == 21;
    ExtendsTrans(q0, covered, qs);
    CoveredKept(covered, qs, env, 0, |Categories|);
  }

  /** ensureSeededRobust issued at a tick; returns how many creation
      attempts and how many fetches it made. With the flag set nothing
      happens; otherwise both loops run and the flag is set in every
      case. */
  method EnsureSeededRobust(repo: QuizRepo, env: Env, tick: nat) returns (attempts: nat, fetches: nat)
    modifies repo`quizzes, repo`seedFlag
    ensures old(IsSeeded(repo)) ==>
              attempts == 0 && fetches == 0 && repo.quizzes == old(repo.quizzes) && repo.seedFlag == old(repo.seedFlag)
    ensures !old(IsSeeded(repo)) ==> SeedRun(old(repo.All()), repo.All(), env, attempts, fetches)
    ensures !old(IsSeeded(repo)) && |repo.All()| > TargetMin ==> attempts == |Categories|
    ensures |repo.All()| <= Max(|old(repo.All())| + |Categories|, TargetMin)
    ensures IsSeeded(repo)
    ensures attempts <= MaxAttempts && fetches <= |AmountTry| * attempts
    ensures Extends(old(repo.All()), repo.All()) && |repo.All()| <= |old(repo.All())| + attempts
    ensures NoDuplicateTitles(old(repo.All())) ==> NoDuplicateTitles(repo.All())
  {
    if IsSeeded(repo) {
      ExtendsRefl(repo.All());
      return 0, 0;
    }
    attempts, fetches := SeedCatalogue(repo, env, tick);
    ghost var seeded := repo.All();
    MarkSeeded(repo);
    assert repo.All() == seeded;
  }

  /** Running the engine a second time, without a reset in between, is a
      no-op: no fetch, no change to the list or the flag. */
  method SeedTwice(repo: QuizRepo, env: Env, tick: nat)
    returns (afterFirst: Slot<seq<Quiz>>, secondAttempts: nat, secondFetches: nat)
    modifies repo`quizzes, repo`seedFlag
    ensures IsSeeded(repo) && repo.quizzes == afterFirst
    ensures secondAttempts == 0 && secondFetches == 0
  {
    var attempts, fetches := EnsureSeededRobust(repo, env, tick);
    afterFirst := repo.quizzes;
    secondAttempts, secondFetches := EnsureSeededRobust(repo, env, tick + fetches);
  }
}
