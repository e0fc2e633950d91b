# TriviaQuest quiz catalogue, in Dafny

A model of the logic behind a browser trivia-quiz application. It covers:

- **The question-source client.** A fixed 21-entry category table, validation of an OpenTriviaDB reply, and normalisation of each result into a question. The question's answers are the correct answer plus the incorrect ones, shuffled once with Fisher–Yates.
- **Three persistent stores**, each kept in the browser's key-value store:
  - quizzes, newest first, plus a "seeding done" flag;
  - quiz attempts, newest first;
  - user accounts plus the signed-in user.
- **The seeding engine.** It bootstraps the catalogue once, creating one quiz per (category, difficulty) combination:
  - titles are compared ignoring case;
  - question amounts fall back from 10 down to 5;
  - one coverage pass runs over every category;
  - up to three more rounds run while fewer than 20 quizzes exist.
- **The decision logic of the pages:**
  - catalogue filtering and pagination;
  - answer completeness, scoring and the stored attempt;
  - per-user statistics;
  - the top-three leaderboard;
  - the three forms (create quiz, register, log in).

Each store is a class with one field per storage key. A key holding JSON is a field of type `Slot<T>`, which is `Absent`, `Corrupt` (a value `JSON.parse` rejects) or `Holds(v)`, and a read turns anything but `Holds` into the empty default. The seeding flag is read as a raw string, so its field is an `Option<string>`.

The page state that the handlers update step by step is also a class: filters and page number, chosen answers and submit flags, and form fields. The derived values are functions: the filtered list, the page count, the visible block, the score, the totals and the error records.

Things outside the program are parameters, grouped in `Platform.Env`:

- the HTTP endpoint, as a function from a request to a reply;
- HTML-entity decoding;
- `Math.random`, as a real in [0, 1);
- the id and timestamp generators.

A `tick` argument, the number of earlier fetches, selects which fresh ids and random numbers each request receives.

The program is the Vite/React source under `trivia/src`. `ensureSeededRobust` sets the flag once the coverage pass has tried every category, whatever the number of quizzes reached; `Seed.EnsureSeededRobust` does the same.

## Model

| member | source | states |
|---|---|---|
| Common.ReadList | trivia/src/lib/quiz/QuizService.ts:8-15 | A missing or unparsable stored list reads as the empty list; a parsed one reads as itself. |
| Common.ReadValue | trivia/src/lib/auth/AuthService.ts:19-26 | A missing or unparsable stored user reads as null. |
| Common.Filter | trivia/src/lib/quiz/ResultsService.ts:35-37 | Array.prototype.filter: exactly the elements satisfying the predicate, never more than the input. |
| Common.FilterAppend | trivia/src/lib/quiz/ResultsService.ts:35-37 | Filtering keeps the order: the filter of a concatenation is the concatenation of the filters. |
| Common.RoundDiv | trivia/src/pages/Stats.tsx:24 | Math.round(a / b): the integer nearest to a / b, halves rounded up. |
| Common.RoundDivWithin | trivia/src/pages/Stats.tsx:23-24 | A rounded quotient of a value between b*lo and b*hi lies between lo and hi. |
| Common.MessageOr | trivia/src/components/quiz/CreateQuiz.tsx:43-44 | err?.message \|\| fallback: a non-empty message is kept, an empty one gives the fallback. |
| Text.Lower | trivia/src/lib/quiz/Seed.ts:21 | toLowerCase keeps the length and lowers each ASCII capital, leaving other characters alone. |
| Text.Trim | trivia/src/components/quiz/CreateQuiz.tsx:23 | trim yields the infix that starts after the leading whitespace: no whitespace at either end, only whitespace after it. |
| Text.TrimSkipsLeadingSpace | trivia/src/components/quiz/CreateQuiz.tsx:34 | A whitespace character in front of a string does not change its trimmed form. |
| Text.NatText | trivia/src/lib/quiz/opentdb.ts:91 | The decimal text of a natural number: digits only, no leading zero, spelling the number. |
| Text.IntText | trivia/src/lib/quiz/opentdb.ts:91 | String(id): a '-' exactly for a negative id, then the digits of its magnitude, reading back as id. |
| Text.IntTextInjective | trivia/src/lib/quiz/opentdb.ts:91 | Distinct ids have distinct texts, so distinct unknown ids get distinct "Category {id}" labels. |
| OpenTdb.CategoryTableShape | trivia/src/lib/quiz/opentdb.ts:4-26 | The category table has 21 entries and no id occurs twice. |
| OpenTdb.FindCategory | trivia/src/lib/quiz/opentdb.ts:91 | find returns the name of the first entry with the id, and nothing exactly when no entry has it. |
| OpenTdb.CategoryNameByIdSpec | trivia/src/lib/quiz/opentdb.ts:90-92 | categoryNameById gives the table's name for an id in the table, and "Category {id}" for any other. |
| OpenTdb.CategoryNameById | trivia/src/lib/quiz/opentdb.ts:90-92 | Its contract is stated by CategoryNameByIdSpec. |
| OpenTdb.SwapIndex | trivia/src/lib/quiz/opentdb.ts:38 | Math.floor(Math.random() * (i + 1)) is an index in [0, i], so both swapped positions are in range. |
| OpenTdb.SwappedIsPermutation | trivia/src/lib/quiz/opentdb.ts:39 | The destructuring swap keeps the length and the multiset of entries. |
| OpenTdb.ShuffleStepsIsPermutation | trivia/src/lib/quiz/opentdb.ts:37-40 | Any number of remaining loop steps yields a permutation of the list. |
| OpenTdb.ShuffledIsPermutation | trivia/src/lib/quiz/opentdb.ts:35-42 | shuffle returns a permutation of its input: same length, same multiset. |
| OpenTdb.Shuffled | trivia/src/lib/quiz/opentdb.ts:35-42 | The reference result of the shuffle; ShuffledIsPermutation and Shuffle state its properties. |
| OpenTdb.Shuffle | trivia/src/lib/quiz/opentdb.ts:35-42 | The in-place loop on an array copy computes the descending Fisher–Yates result and returns a permutation. The argument is a value, so it cannot change. |
| OpenTdb.ErrorMessage | trivia/src/lib/quiz/opentdb.ts:61-68 | A rejected request's error keeps the browser's message; the two messages the client throws itself are non-empty. |
| OpenTdb.MapDecode | trivia/src/lib/quiz/opentdb.ts:74-76 | Decoding a list decodes every entry in place, keeping the length. |
| OpenTdb.Normalize | trivia/src/lib/quiz/opentdb.ts:71-85 | See the list below the table. |
| OpenTdb.FetchQuestions | trivia/src/lib/quiz/opentdb.ts:61-87 | See the list below the table. |
| Platform.Fetch | trivia/src/lib/quiz/opentdb.ts:50-88 | A fetch at a tick succeeds exactly when the reply is usable, with one question per result. |
| QuizService.QuizRepo.All | trivia/src/lib/quiz/QuizService.ts:27-29 | getAll is the stored list as read: empty when the key is missing or corrupt. CreateFromOpenTdb states its effect on it. |
| QuizService.NewQuiz | trivia/src/lib/quiz/QuizService.ts:45-55 | The record built from the input, the author, the fetched questions, a fresh id and a timestamp. CreateFromOpenTdb's contract states each field. |
| QuizService.FindById | trivia/src/lib/quiz/QuizService.ts:32-34 | getById finds the first stored quiz with the id, and nothing exactly when no quiz has it. |
| QuizService.QuizRepo.GetById | trivia/src/lib/quiz/QuizService.ts:32-34 | A read of the stored list through FindById, whose contract states the first match. |
| QuizService.FindAfterInsert | trivia/src/lib/quiz/QuizService.ts:32-57 | A quiz just put at the head is what getById finds for its id. |
| QuizService.CreateFromOpenTdb | trivia/src/lib/quiz/QuizService.ts:36-60 | See the list below the table. |
| Seed.MarkSeeded | trivia/src/lib/quiz/Seed.ts:12-14 | The flag reads '1'. |
| Seed.IsSeeded | trivia/src/lib/quiz/Seed.ts:9-11 | The flag reads '1'; MarkSeeded, ResetSeed and EnsureSeededRobust state it. |
| Seed.ClearSeedFlag | trivia/src/lib/quiz/Seed.ts:15-17 | The flag is removed. |
| Seed.ResetSeed | trivia/src/lib/quiz/Seed.ts:97-99 | resetSeed removes the flag and leaves the quiz list untouched. |
| Seed.ExistsByTitle | trivia/src/lib/quiz/Seed.ts:19-23 | existsByTitle holds exactly when some stored quiz has the title, compared after lower-casing. |
| Seed.PickDifficultyRotation | trivia/src/lib/quiz/Seed.ts:25-28 | pickDifficulty maps 0, 1, 2 to easy, medium, hard, repeats with period 3, and three consecutive indices give all three difficulties. |
| Seed.PickDifficulty | trivia/src/lib/quiz/Seed.ts:25-28 | Its contract is stated by PickDifficultyRotation. |
| Seed.FirstAvailable | trivia/src/lib/quiz/Seed.ts:46-57 | The first amount position whose request the source answers usably; none exactly when all six fail. |
| Seed.FirstAvailableAt | trivia/src/lib/quiz/Seed.ts:46-52 | A usable position after a run of unusable ones is the first available one. |
| Seed.SeedStepKeeps | trivia/src/lib/quiz/Seed.ts:42-57 | See the list below the table. |
| Seed.ExtendsTrans | trivia/src/lib/quiz/Seed.ts:66-92 | Growing the list at the head twice is growing it at the head. |
| Seed.TryAmount | trivia/src/lib/quiz/Seed.ts:47-52 | One createFromOpenTDB call with amount AmountTry[k] succeeds exactly when that request is usable. Success adds one seed quiz with the title, category, difficulty and amount; failure changes nothing. |
| Seed.TryAmounts | trivia/src/lib/quiz/Seed.ts:46-57 | See the list below the table. |
| Seed.TryCreateWithFallback | trivia/src/lib/quiz/Seed.ts:35-58 | See the list below the table. |
| Seed.CoveredKept | trivia/src/lib/quiz/Seed.ts:71-90 | The combinations of a pass (category i with pickDifficulty(i + offset)) stay covered as the list grows. |
| Seed.CoveredNext | trivia/src/lib/quiz/Seed.ts:71-90 | Covering category i's combination of a pass extends its covered prefix to i + 1. |
| Seed.RoundsKept | trivia/src/lib/quiz/Seed.ts:81-92 | Rounds already covered in full stay covered through a later round. |
| Seed.RoundsNext | trivia/src/lib/quiz/Seed.ts:81-92 | A round covered in full after rounds 1..r-1 gives rounds 1..r. |
| Seed.CoveragePass | trivia/src/lib/quiz/Seed.ts:70-78 | See the list below the table. |
| Seed.RotationRound | trivia/src/lib/quiz/Seed.ts:83-90 | See the list below the table. |
| Seed.SeedTitle | trivia/src/lib/quiz/Seed.ts:39-40 | The fixed title `<category name> (<difficulty>)`. SeedTitleDistinct shows how it separates the combinations. |
| Seed.SeedTitleDistinct | trivia/src/lib/quiz/Seed.ts:39-40 | Within one category, two seeded titles are equal exactly when the difficulties are. |
| Seed.SeedRunFromPasses | trivia/src/lib/quiz/Seed.ts:69-92 | The facts from the coverage pass and from the extra rounds add up to SeedRun. A count above 20 means the extra rounds made no attempt, and the count is at most max(start + 21, 20). |
| Seed.ExtraRounds | trivia/src/lib/quiz/Seed.ts:80-92 | See the list below the table. |
| Seed.SeedCatalogue | trivia/src/lib/quiz/Seed.ts:69-92 | Both loops together establish SeedRun (see EnsureSeededRobust below). A count above 20 means only the 21 coverage attempts were made. The count is at most max(start + 21, 20). |
| Seed.EnsureSeededRobust | trivia/src/lib/quiz/Seed.ts:66-95 | See the list below the table. |
| Seed.SeedTwice | trivia/src/lib/quiz/Seed.ts:66-67 | A second run without a reset makes no attempt and no fetch, and leaves list and flag as the first run left them. |
| ResultsService.ResultsStore.All | trivia/src/lib/quiz/ResultsService.ts:31-33 | getAll is the stored attempts as read. Add states its effect on it, and GetByUser reads it. |
| ResultsService.WithIdKeepsFields | trivia/src/lib/quiz/ResultsService.ts:24 | The stored item carries every field of the given attempt plus the fresh id. |
| ResultsService.WithIdOfDraft | trivia/src/lib/quiz/ResultsService.ts:24 | Dropping the id and adding it back gives the attempt back. |
| ResultsService.ByUser | trivia/src/lib/quiz/ResultsService.ts:35-37 | getByUser returns exactly the stored attempts with that user id. |
| ResultsService.ByUserKeepsOrder | trivia/src/lib/quiz/ResultsService.ts:35-37 | getByUser keeps the stored order. |
| ResultsService.ByUserAfterAdd | trivia/src/lib/quiz/ResultsService.ts:23-37 | After add, the new attempt heads its user's view, followed by that user's earlier ones. Every other user's view is unchanged. |
| ResultsService.ResultsStore.GetByUser | trivia/src/lib/quiz/ResultsService.ts:35-37 | A read of the stored attempts through ByUser, whose contract states the membership. |
| ResultsService.Add | trivia/src/lib/quiz/ResultsService.ts:23-29 | add prepends exactly one item, the attempt plus its id, and returns it. The rest is unchanged and the length grows by one. |
| AuthService.AuthStore.All | trivia/src/lib/auth/AuthService.ts:40-42 | getAll is the stored accounts as read. Register states its effect on it. |
| AuthService.AuthStore.Current | trivia/src/lib/auth/AuthService.ts:44-46 | getCurrent is the stored signed-in user, or null when it is missing or corrupt. Register, Login and Logout state their effect on it. |
| AuthService.EmailTaken | trivia/src/lib/auth/AuthService.ts:48-51 | isEmailTaken holds exactly when some account's address equals the given one after lower-casing. |
| AuthService.AuthStore.IsEmailTaken | trivia/src/lib/auth/AuthService.ts:48-51 | A read of the stored accounts through EmailTaken, whose contract states the match. |
| AuthService.AppendKeepsEmailsDistinct | trivia/src/lib/auth/AuthService.ts:55-59 | Appending an account whose address is not taken keeps all addresses distinct up to case. |
| AuthService.FindLogin | trivia/src/lib/auth/AuthService.ts:68-71 | The login lookup returns the first account matching the address (up to case) and the exact password. It returns nothing exactly when none matches. |
| AuthService.LoginMatchUnique | trivia/src/lib/auth/AuthService.ts:55-71 | With distinct addresses, the account found is the only matching one. |
| AuthService.Register | trivia/src/lib/auth/AuthService.ts:53-64 | See the list below the table. |
| AuthService.Login | trivia/src/lib/auth/AuthService.ts:66-82 | See the list below the table. |
| AuthService.Logout | trivia/src/lib/auth/AuthService.ts:84-86 | logout removes the current user, so getCurrent returns null. |
| Email.IndexOf | trivia/src/pages/Register.tsx:9 | The position of the first occurrence of a character, or the length when it is absent. |
| Email.IsValidEmail | trivia/src/pages/Register.tsx:8-10 | Its contract is stated by IsValidEmailMatchesPattern. |
| Email.ValidEmailMatches | trivia/src/pages/Register.tsx:8-10 | The scanning check accepts only strings of the shape A@B.C with A, B, C non-empty runs of [^\s@]. |
| Email.MatchesValidEmail | trivia/src/pages/Register.tsx:8-10 | Every string of that shape passes the scanning check. |
| Email.IsValidEmailMatchesPattern | trivia/src/pages/Login.tsx:7-9 | The e-mail check holds exactly when the regular expression matches, in both forms. |
| Home.Filtered | trivia/src/pages/Home.tsx:42-50 | A quiz is kept exactly when it matches both filters ('all' matches every quiz). |
| Home.FilteredKeepsOrder | trivia/src/pages/Home.tsx:43 | Filtering keeps the order of the list. |
| Home.FilteredAllIsIdentity | trivia/src/pages/Home.tsx:42-50 | With both filters on 'all', the full list is shown in order. |
| Home.PageCount | trivia/src/pages/Home.tsx:52 | pageCount is at least 1, is 1 for an empty list, and is otherwise ceil(n / 6). |
| Home.Slice | trivia/src/pages/Home.tsx:64 | slice(start, end) is the block from start to min(end, length), and empty past the end. |
| Home.Visible | trivia/src/pages/Home.tsx:62-65 | A page never shows more than six quizzes. |
| Home.VisibleIsBlock | trivia/src/pages/Home.tsx:62-65 | A page from 1 to pageCount is the block filtered[(page-1)*6 .. min(page*6, n)]. It has at most six entries and is never empty for a non-empty list. |
| Home.PagesArePrefix | trivia/src/pages/Home.tsx:62-65 | Pages 1..n, one after another, are the first min(6n, length) entries. |
| Home.PaginationPartitions | trivia/src/pages/Home.tsx:52-65 | Pages 1..pageCount, one after another, are exactly the filtered list. |
| Home.HomePage.constructor | trivia/src/pages/Home.tsx:16-24 | Loading, no quizzes, both filters 'all', page 1. |
| Home.HomePage.ClampPage | trivia/src/pages/Home.tsx:58-60 | A page past pageCount becomes pageCount; any other page stays. |
| Home.HomePage.SetCategoryFilter | trivia/src/pages/Home.tsx:54-56 | Changing the category filter resets the page to 1. |
| Home.HomePage.SetDifficultyFilter | trivia/src/pages/Home.tsx:54-56 | Changing the difficulty filter resets the page to 1. |
| Home.HomePage.SelectPage | trivia/src/pages/Home.tsx:172-175 | A page button sets the page to its number. |
| Home.HomePage.Load | trivia/src/pages/Home.tsx:26-40 | After seeding, the stored list is shown and loading ends; the page becomes the old page clamped to the new page count. |
| Home.HomePage.RefreshList | trivia/src/pages/Home.tsx:67-70 | The stored list is read again and page 1 is shown. |
| QuizPlay.CountCorrect | trivia/src/pages/QuizPlay.tsx:43-45 | See the list below the table. |
| QuizPlay.CountCorrectCountsHits | trivia/src/pages/QuizPlay.tsx:43-45 | The score is the number of questions answered correctly. |
| QuizPlay.AllAnswered | trivia/src/pages/QuizPlay.tsx:31-33 | A non-empty quiz with one answer per question; HandleSubmit states its use. |
| QuizPlay.Percent | trivia/src/pages/QuizPlay.tsx:57 | Its contract is stated by PercentBounds. |
| QuizPlay.PercentBounds | trivia/src/pages/QuizPlay.tsx:57 | The stored percent lies in [0, 100]. It is 0 when nothing is correct and 100 when everything is. |
| QuizPlay.QuizPlayPage.Load | trivia/src/pages/QuizPlay.tsx:26-29 | The page shows the first stored quiz with the route id, or none. |
| QuizPlay.QuizPlayPage.HandleSelect | trivia/src/pages/QuizPlay.tsx:35-37 | Selecting sets only that question's answer and keeps every other answer; re-selecting overwrites. |
| QuizPlay.QuizPlayPage.HandleSubmit | trivia/src/pages/QuizPlay.tsx:39-64 | See the list below the table. |
| Stats.SumPercent | trivia/src/pages/Stats.tsx:23 | The reduce that sums the percents. SumWithin bounds it, and AverageWithin bounds the rounded average. |
| Stats.BestPercent | trivia/src/pages/Stats.tsx:25 | The best percent is at least 0 and at least every row's percent, and it is 0 or one of them. |
| Stats.TotalsShape | trivia/src/pages/Stats.tsx:18-27 | No rows give 0, 0, 0; played is the row count; best is one of the percents when none is negative. |
| Stats.StatTotals | trivia/src/pages/Stats.tsx:18-27 | Its contract is stated by TotalsShape and AverageWithin. |
| Stats.SumWithin | trivia/src/pages/Stats.tsx:23 | The sum of n percents within [lo, hi] lies within [n*lo, n*hi]. |
| Stats.AverageWithin | trivia/src/pages/Stats.tsx:23-24 | The rounded average lies between any bounds on all row percents, so between the minimum and the maximum. |
| Stats.StatsPage.Load | trivia/src/pages/Stats.tsx:13-16 | Without a user the rows stay as they were. Otherwise they are exactly that user's stored attempts. |
| Leaderboard.Insert | trivia/src/components/quiz/QuizMiniLeaderboard.tsx:15-19 | Insertion adds exactly the one entry. |
| Leaderboard.InsertKeepsRanked | trivia/src/components/quiz/QuizMiniLeaderboard.tsx:15-19 | Inserting into a ranked list keeps it ranked. |
| Leaderboard.SortRanked | trivia/src/components/quiz/QuizMiniLeaderboard.tsx:15-19 | The sort returns a permutation ordered by percent descending, then finishedAt ascending. |
| Leaderboard.OfQuiz | trivia/src/components/quiz/QuizMiniLeaderboard.tsx:14 | Exactly the stored attempts at the quiz. |
| Leaderboard.Ranking | trivia/src/components/quiz/QuizMiniLeaderboard.tsx:14-19 | The ranking holds exactly the quiz's attempts, ordered by percent descending, then finishedAt ascending. |
| Leaderboard.TopAttempts | trivia/src/components/quiz/QuizMiniLeaderboard.tsx:20 | The shown rows are the first min(3, n) rows of the ranking. |
| Leaderboard.TopAttemptsShape | trivia/src/components/quiz/QuizMiniLeaderboard.tsx:13-21 | At most three rows are shown, all of the quiz and stored, ranked, and drawn from the quiz's attempts. |
| Leaderboard.NoOmittedAttemptRanksAhead | trivia/src/components/quiz/QuizMiniLeaderboard.tsx:15-20 | No attempt left out ranks strictly ahead of a shown one. |
| CreateQuiz.CanCreateIgnoresLeadingSpace | trivia/src/components/quiz/CreateQuiz.tsx:22-34 | Leading whitespace changes neither canCreate nor the title passed to the service. |
| CreateQuiz.CanCreate | trivia/src/components/quiz/CreateQuiz.tsx:22-25 | A trimmed title of at least 3 characters and an amount in [5, 50]; CanCreateIgnoresLeadingSpace and HandleCreate state its use. |
| CreateQuiz.FetchFailureShownAsIs | trivia/src/components/quiz/CreateQuiz.tsx:43-44 | The client's own failure messages are shown as they are. A rejection shows the browser's message, and the fallback only when that message is empty. |
| CreateQuiz.CreateQuizForm.constructor | trivia/src/components/quiz/CreateQuiz.tsx:15-20 | Empty title, category 9, easy, 10 questions, not creating, no message. |
| CreateQuiz.CreateQuizForm.HandleCreate | trivia/src/components/quiz/CreateQuiz.tsx:27-48 | See the list below the table. |
| CreateQuiz.CreateQuizForm.Submit | trivia/src/components/quiz/CreateQuiz.tsx:30-47 | The part past the guard, with the same outcomes as HandleCreate. |
| CreateQuiz.CreateQuizForm.ResetAfterCreate | trivia/src/components/quiz/CreateQuiz.tsx:37-42 | After a creation, the title is empty, with 10 questions, easy, category 9, and onCreated called once more. |
| CreateQuiz.CreateQuizForm.ShowFailure | trivia/src/components/quiz/CreateQuiz.tsx:43-44 | The shown message is the error's own, or "Failed to create quiz." when that is empty. |
| Register.ErrorsSpec | trivia/src/pages/Register.tsx:25-37 | No errors before the form is touched. Afterwards there are none exactly when the form is complete, and "required" messages take precedence. |
| Register.Errors | trivia/src/pages/Register.tsx:25-37 | Its contract is stated by ErrorsSpec. |
| Register.CanSubmitIffComplete | trivia/src/pages/Register.tsx:39-51 | canSubmit holds exactly when the form is complete, whether touched or not. Complete means: a name, an address of the pattern's shape, a password of at least 6 characters, the same confirmation, and the terms accepted. |
| Register.CanSubmit | trivia/src/pages/Register.tsx:39-51 | Its contract is stated by CanSubmitIffComplete. |
| Register.RegisterPage.OnSubmit | trivia/src/pages/Register.tsx:53-64 | See the list below the table. |
| Login.LoginFormSpec | trivia/src/pages/Login.tsx:19-32 | No errors before the form is touched. Afterwards there are none exactly when the address matches and a password is given, with "required" first. canSubmit is that same condition. |
| Login.Errors | trivia/src/pages/Login.tsx:19-26 | Its contract is stated by LoginFormSpec. |
| Login.CanSubmit | trivia/src/pages/Login.tsx:28-32 | Its contract is stated by LoginFormSpec. |
| Login.LoginPage.OnSubmit | trivia/src/pages/Login.tsx:34-41 | The form becomes touched and navigates home exactly when canSubmit held; no account is consulted. |

Rows whose longer contracts are stated here:

- **OpenTdb.Normalize:**
  - id, question and correct answer are as given and decoded;
  - a missing incorrect_answers gives [] and allAnswers == [correct];
  - allAnswers is a permutation of [correct] + incorrect, so it contains the correct answer.
- **OpenTdb.FetchQuestions:**
  - a rejected fetch or body parse passes its own error through unchanged;
  - a response that is not ok gives the "Failed to fetch" error;
  - a non-zero response_code or a non-array results gives the "no results" error;
  - otherwise there is one normalised question per result, in order.
- **QuizService.CreateFromOpenTdb:**
  - the fetch comes first, so a failed fetch propagates its error and writes nothing;
  - on success the new quiz heads the list and the tail is the old list;
  - title, categoryId, difficulty and amount are the input's;
  - categoryName is categoryNameById(categoryId);
  - questions are the fetched ones;
  - createdBy is the author.
- **Seed.SeedStepKeeps:** a step that adds at most one seed quiz with a title not yet present keeps the list an extension of the start, introduces no duplicate title and loses no title.
- **Seed.TryAmounts:**
  - amounts are tried in order 10..5 and the loop stops at the first success;
  - it adds exactly one seed quiz with that amount, or changes nothing when all six fail;
  - the fetch count is the number of tries.
- **Seed.TryCreateWithFallback:**
  - an existing title (ignoring case) returns true with no fetch and no change;
  - otherwise the amount fallback runs;
  - at most one seed quiz is added, and never a duplicate title.
- **Seed.CoveragePass:**
  - category i is paired with pickDifficulty(i);
  - it makes at most 6 fetches per category and adds at most 21 seed quizzes;
  - afterwards every combination has its quiz or the source had none for it.
- **Seed.RotationRound:**
  - it stops once 20 quizzes exist, or after 21 attempts;
  - attempt i pairs category i with pickDifficulty(i + round), and every attempted combination is covered afterwards;
  - it adds only seed quizzes and loses no title.
- **Seed.ExtraRounds:**
  - rounds 1, 2, 3 run while fewer than 20 quizzes exist;
  - at most 63 attempts, with at most 6 fetches each;
  - it adds only seed quizzes, with no duplicate title, and loses no title;
  - when it ends below 20 quizzes, all 63 attempts were made and every round r in 1..3 covered all 21 categories with pickDifficulty(i + r);
  - a start at 20 or more makes no attempt and changes nothing;
  - the count never exceeds max(start, 20).
- **Seed.EnsureSeededRobust:**
  - with the flag already '1', nothing changes;
  - afterwards the flag is '1' in every case;
  - at most 84 attempts are made, with at most 6 fetches each;
  - the list grows only at the head, by seed quizzes;
  - no duplicate title is introduced;
  - every coverage combination (category i with pickDifficulty(i)) is covered;
  - below 20 quizzes, all 84 attempts were made, and for each round r in 1..3 the combination of category i with pickDifficulty(i + r) is covered for every i;
  - the extra rounds stop once 20 quizzes exist: the final count is at most max(start + 21, 20), and above 20 only the 21 coverage attempts were made.
- **AuthService.Register:**
  - a taken address (ignoring case) fails with "Email is already registered." and changes neither users nor current;
  - otherwise exactly one account is appended;
  - the current user becomes the returned {id, name, email};
  - addresses stay distinct.
- **AuthService.Login:**
  - login succeeds exactly when some account matches;
  - it signs in the first match without its password;
  - otherwise it fails with "Invalid email or password." and current is unchanged.
- **QuizPlay.CountCorrect:**
  - the score lies in [0, total];
  - it equals total exactly when all answers are correct;
  - it is 0 exactly when none are.
- **QuizPlay.QuizPlayPage.HandleSubmit:**
  - nothing happens without a quiz, without a user, before all questions are answered, or while submitting;
  - otherwise one attempt is stored first, with total = question count, the score and a percent in [0, 100];
  - the result dialog opens and submitting ends.
- **CreateQuiz.CreateQuizForm.HandleCreate:**
  - nothing happens without a user or when canCreate is false;
  - when it proceeds, the trimmed title is submitted;
  - success resets the form (title '', 10, easy, category 9) and invokes onCreated;
  - failure shows the error's message, or "Failed to create quiz." when it is empty, and keeps the fields;
  - creating is false afterwards.
- **Register.RegisterPage.OnSubmit:**
  - the form becomes touched and the message is cleared;
  - register is called only when canSubmit held;
  - success navigates home;
  - failure shows the service's message and changes no account.

## Left out

- A request's reply depends on the request alone (`Env.api`), so asking again gives the same answer. The endpoint can answer a retry differently (a rate-limit response code, say). In the model the third extra round (offset 3, the coverage pass's pairs again) can therefore add nothing, and "the source had none for it" in the coverage results means the one reply to that request.
- CreateQuiz.CanCreate: `length` counts UTF-16 code units, and the model counts characters. A title with characters outside the Basic Multilingual Plane can pass the source's three-character check and fail the model's.
- CreateQuiz.CanCreate: the amount comes from `Number(e.target.value)` (trivia/src/components/quiz/CreateQuiz.tsx:115), a JavaScript number, and the model's amount is an integer. A fractional amount such as 7.5, which passes the source's range check, is not represented.
- Register.Errors: the UTF-16 point above applies to the six-character password rule.
- HTML entity decoding goes through the DOM. It is the uninterpreted parameter `Env.decode`.
- The HTTP request, its URL and JSON parsing are not modelled. A request is the triple (amount, category, difficulty), and the reply is given by `Env.api`.
- `localStorage`, `JSON.parse`/`stringify` and cross-tab or concurrent access are not modelled. Storage is typed fields, and a corrupt value is an explicit `Corrupt` case that reads as the default.
- Id generation and timestamps (`genId`, `Date.now`, `new Date().toISOString()`) are not modelled. They are fixed functions of a tick or given arguments; the code does not make ids unique and the model does not assume it.
- Attempt timestamps are ISO strings compared through `Date` in the source, and are integers here.
- `QuizService.ensureSeeded` runs its creations concurrently through `Promise.all`. Its insertion order depends on response arrival, so it is not modelled; the page uses `ensureSeededRobust`. It shares the flag key with the seeding engine.
- Lower-casing, `trim` and the `\s` class cover ASCII only. Unicode case mapping and Unicode whitespace are not modelled.
- `Math.round` of a floating-point ratio is modelled as exact half-up integer rounding. Agreement with IEEE arithmetic at .5 boundaries is not claimed.
- OpenTdb.Shuffle: it draws its random numbers from a given function. The model says nothing about how uniform the resulting permutation is.
- Leaderboard.SortRanked: `Array.prototype.sort` is a library call, modelled by an insertion sort on values. It puts earlier entries first among equal keys, but stability is not proved, so the order of two rows with equal percent and finish time is left open.
- React rendering, effect scheduling, the `mounted` guard, routing and the `AuthContext` wrapper (which only forwards to the user store) are not modelled.
- The stored answer map of the play page is a `map<string, string>`. JavaScript's `undefined` for a missing key is modelled as "not answered".
