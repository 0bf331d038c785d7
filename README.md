# Quiz engine model

A Dafny model of the `QuizSystem` class of `quizzes/advanced-quiz-system.js`.
It is a single-player, terminal quiz engine about Docker and YAML. It keeps
two stored documents: the users table (name to record: totals, average,
achievements, attempt history) and the leaderboard (one row per player who
has recorded an attempt). It also keeps per-quiz counters: the current
player, the current quiz, the correct-answer count, the streak of
consecutive right answers and the seconds the last quiz took.

The model keeps the program's split between code that updates state and code
that only computes:

- `QuizEngine.QuizSystem` is a class holding the tables and counters as fields.
  Its methods are sign-in, the question loop, showing results, saving progress,
  refreshing the leaderboard and granting an achievement.
  - Each method states its new state in terms of functions of the old state.
  - Each keeps the class invariant `Valid()`: every user record is
    consistent; the leaderboard is sorted by average, then quiz count, both
    descending; it holds one row per user, each mirroring that user's record;
    every player with an attempt has a row; and a signed-in named player has a
    record.
  - The question loop is a `while` loop with its invariants.
- Grading, scoring, grades, the achievement grant on one record, recording
  an attempt, the leaderboard sort, skill tiers, the category catalog and menu
  dispatch are functions, with lemmas relating them.
  - The menu is a transition function over a `Screen` datatype instead of the
    program's chain of awaited calls.

| module | file | contents |
|---|---|---|
| `Wrappers` | wrappers.dfy | `Option` |
| `QuizData` | quiz_data.dfy | records and the achievement catalog |
| `JsText` | js_text.dfy | `trim`, `parseInt`, first code unit of `toUpperCase` |
| `Grading` | grading.dfy | answer grading, counters, streak milestones, score, grade |
| `Achievements` | achievements.dfy | granting achievements on one record |
| `Progress` | progress.dfy | user records, recording an attempt, per-quiz progress |
| `Leaderboard` | leaderboard.dfy | rows, the stable sort, refresh, top ten |
| `Identity` | identity.dfy | sign-in by name |
| `QuizCatalog` | quiz_catalog.dfy | categories, weekly challenge, skill tiers, adaptive quiz |
| `Menu` | menu.dfy | main and category menu dispatch |
| `QuizEngine` | quiz_system.dfy | the `QuizSystem` class and the invariants of the stored documents |

Where the program's own documentation and its code disagree, the model
follows the code:

- A player who types the name `guest` gets a stored record. The code creates
  the record before its guest checks run. The welcome grant, the saves and the
  row are skipped for that name, because the current player then equals the
  guest sentinel. The documentation says the guest is never stored.
- A leaderboard row is refreshed only when an attempt is saved, not on every
  change to the record. A row's achievement count can therefore lag behind its
  user's record: `MirrorsRecord` requires the row's count to be at most the
  record's, not equal to it.

## Model

| member | source | states |
|---|---|---|
| JsText.Trim | quizzes/advanced-quiz-system.js:114-115 | the trimmed name is empty exactly when the input is all white space, and otherwise starts and ends with a non-blank character |
| JsText.TrimStart | quizzes/advanced-quiz-system.js:115 | the result is a suffix of the input that starts with a non-blank character or is empty, and everything removed is white space |
| JsText.TrimEnd | quizzes/advanced-quiz-system.js:115 | the result is a prefix of the input that ends with a non-blank character or is empty, and everything removed is white space |
| JsText.TrimRemovesPadding | quizzes/advanced-quiz-system.js:114-115 | trimming white space around a text with non-blank ends gives back exactly that text |
| JsText.TrimIdempotent | quizzes/advanced-quiz-system.js:115 | trimming a trimmed name changes nothing |
| JsText.ParsePlainDecimal | quizzes/advanced-quiz-system.js:218 | `parseInt` reads any string of decimal digits, leading zeros included, whole and as its decimal value |
| JsText.ParseDecimal | quizzes/advanced-quiz-system.js:218 | `parseInt` of the numeral of n, after any leading white space, is n |
| JsText.FirstUpperUnit | quizzes/advanced-quiz-system.js:299 | lower-case ASCII letters map to upper case and upper-case ones to themselves; a code in `A`..`Z` comes only from an ASCII letter or a character at or above 128 |
| Grading.AnswerIndex | quizzes/advanced-quiz-system.js:299 | no index exactly for the empty answer; an answer starting with a letter selects that letter's alphabet position, in either case |
| Grading.IsCorrect | quizzes/advanced-quiz-system.js:299-301 | an empty answer is wrong; an answer starting with a letter is right iff the letter's position is the correct index (`b` and `B` both pick option 1); a right answer to a question with at most 26 options starts with a letter or a non-ASCII character |
| Grading.Results | quizzes/advanced-quiz-system.js:266-268 | a definition, not a promise: one verdict per question, the i-th grading the i-th answer against the i-th question; `CountCorrect`, `StreakAfter` and `StreakRequestedIffRun` say what the verdicts give |
| Grading.CountCorrect | quizzes/advanced-quiz-system.js:270-271 | the count never exceeds the answers counted; it equals them iff all are right and is 0 iff none is |
| Grading.StreakAfter | quizzes/advanced-quiz-system.js:270-279 | the streak is the number of right answers at the end in a row: those are all right and the verdict before them, if any, is wrong |
| Grading.StreakRequests | quizzes/advanced-quiz-system.js:274-276 | the question loop requests only STREAK_5 and STREAK_10; `StreakRequestedIffRun` says when |
| Grading.StreakRequestedIffRun | quizzes/advanced-quiz-system.js:274-276 | STREAK_5 (STREAK_10) is requested during a quiz iff the quiz has 5 (10) right answers in a row somewhere |
| Grading.LongRunContainsShort | quizzes/advanced-quiz-system.js:274-276 | ten right answers in a row contain five in a row |
| Grading.FiveThenMiss | quizzes/advanced-quiz-system.js:270-279 | five right answers and a wrong one request STREAK_5 once and nothing else |
| Grading.Score | quizzes/advanced-quiz-system.js:322 | the score lies in [0, 100] and is the integer nearest to 100·correct/total, with halves going up; it is 100 when every answer is right and 0 when none is |
| Grading.HalfBelowThreshold | quizzes/advanced-quiz-system.js:322-344 | an exact half at a grade threshold (59.5, 69.5, 79.5, 89.5) or at 99.5 needs a multiple of 200 questions, so rounding it cannot move a smaller quiz across a grade or to a perfect score |
| Grading.PerfectScoreIff | quizzes/advanced-quiz-system.js:322-330 | the score is 100 iff the wrong answers are at most a two-hundredth of the questions; with fewer than 200 questions, iff every answer is right |
| Grading.GradeFor | quizzes/advanced-quiz-system.js:339-344 | the grade is the best one the score earns: A+ from 90, A from 80, B from 70, C from 60, else F |
| Grading.GradeMonotone | quizzes/advanced-quiz-system.js:339-344 | a higher score never gets a lower grade |
| Achievements.Grant | quizzes/advanced-quiz-system.js:403-423 | earlier records stay as they were; exactly one record is added, the catalog entry of the key, iff the key is one of the catalog's own keys and not yet held; the keys held afterwards are those held before plus the key if it is a catalog key; keys stay distinct catalog keys |
| Achievements.GrantIdempotent | quizzes/advanced-quiz-system.js:412 | granting the same key twice equals granting it once, whatever the times |
| Achievements.GrantAll | quizzes/advanced-quiz-system.js:403-423 | after a series of grants the keys held are those held before plus the requested keys the catalog defines; earlier records stay; keys stay distinct and defined |
| Achievements.GrantAllAppend | quizzes/advanced-quiz-system.js:403-423 | granting one series of keys and then another equals granting their concatenation |
| Progress.NewUser | quizzes/advanced-quiz-system.js:118-127 | a new record has zero totals, zero average, no achievements and no history, and is consistent |
| Progress.RecordAttempt | quizzes/advanced-quiz-system.js:366-369 | the history gains the attempt at its end; the count goes up by 1 and the total by the score; average × count = total; name, achievements and dates are unchanged; a consistent record stays consistent |
| Progress.AverageIsMean | quizzes/advanced-quiz-system.js:369 | in a consistent record the average is the sum of the history's scores over its length |
| Progress.AttemptScore | quizzes/advanced-quiz-system.js:322 | the score of a run of answers is at most 100 |
| Progress.AttemptOf | quizzes/advanced-quiz-system.js:357-364 | the attempt record has a score in [0, 100] and no more correct answers than questions |
| Progress.AfterAttempt | quizzes/advanced-quiz-system.js:255-369 | one attempt appends its record to the history and keeps a consistent record consistent |
| Progress.AttemptAchievements | quizzes/advanced-quiz-system.js:270-331 | after an attempt the player holds a key iff they held it before or the attempt earned it: 5 or 10 right in a row, a score of 100, or at least 10 questions in under 300 seconds |
| Progress.RequestedIffEarned | quizzes/advanced-quiz-system.js:274-331 | a catalog key is requested during or after a quiz iff the attempt earns it |
| Progress.ResultRequests | quizzes/advanced-quiz-system.js:329-331 | PERFECT_SCORE is requested iff the score is 100, SPEED_DEMON iff the quiz took under 300 seconds and has at least 10 questions, and nothing else is requested |
| Progress.AttemptsOf | quizzes/advanced-quiz-system.js:593 | the filtered attempts are exactly the history's attempts of that quiz, each as many times as the history holds it, and no other records |
| Progress.BestScore | quizzes/advanced-quiz-system.js:597 | the best score is reached by one attempt and exceeded by none |
| Progress.QuizProgress | quizzes/advanced-quiz-system.js:589-599 | nothing iff the quiz was never attempted; otherwise between 1 and the history's length attempts, and a best score reached by one of them and exceeded by none |
| Progress.ProgressAfterAttempt | quizzes/advanced-quiz-system.js:589-599 | recording an attempt of a quiz adds one to its attempt count and makes its best score the maximum of the old best and the new score |
| Progress.ProgressOtherQuiz | quizzes/advanced-quiz-system.js:593 | recording an attempt of another quiz leaves a quiz's progress unchanged |
| Leaderboard.EntryFor | quizzes/advanced-quiz-system.js:378-384 | a definition, not a promise: the row copies the user's total, average, quiz count and achievement count under the user's name; `RefreshCorrect` and `BoardAfterRefresh` say what the board gains from it |
| Leaderboard.Insert | quizzes/advanced-quiz-system.js:393-398 | one step of the stable sort adds one row; where it lands, and that it permutes and keeps order and unique names, are the four lemmas below |
| Leaderboard.InsertPlaces | quizzes/advanced-quiz-system.js:393-398 | one sort step puts the new row after every row it does not rank above and before the first row it does |
| Leaderboard.InsertPermutes | quizzes/advanced-quiz-system.js:393-398 | one sort step adds exactly the new row |
| Leaderboard.InsertSorted | quizzes/advanced-quiz-system.js:393-398 | one sort step keeps a sorted list sorted |
| Leaderboard.InsertUnique | quizzes/advanced-quiz-system.js:393-398 | inserting a row for an unlisted user keeps users unique |
| Leaderboard.SortEntries | quizzes/advanced-quiz-system.js:393-398 | the sort keeps the number of rows; `SortCorrect` and `SortSortedUnchanged` give its meaning |
| Leaderboard.SortCorrect | quizzes/advanced-quiz-system.js:393-398 | the sort gives a permutation of its input, ordered by average then quiz count, both descending, with users unique if they were before |
| Leaderboard.SortSortedUnchanged | quizzes/advanced-quiz-system.js:393-398 | the sort is stable: it leaves a sorted list as it is |
| Leaderboard.WithoutUser | quizzes/advanced-quiz-system.js:387 | the filter never adds rows; the three lemmas below say which rows it keeps and what it preserves |
| Leaderboard.WithoutUserMembers | quizzes/advanced-quiz-system.js:387 | the filter keeps exactly the rows of other users |
| Leaderboard.WithoutUserSorted | quizzes/advanced-quiz-system.js:387 | the filter keeps a sorted list sorted |
| Leaderboard.WithoutUserUnique | quizzes/advanced-quiz-system.js:387 | the filter keeps users unique |
| Leaderboard.Refresh | quizzes/advanced-quiz-system.js:386-398 | a refresh holds the other users' rows plus one; `RefreshCorrect` says which rows and in what order |
| Leaderboard.RefreshCorrect | quizzes/advanced-quiz-system.js:386-398 | after a refresh the board is sorted, holds the fresh row exactly once and no other row of its user, keeps every row of every other user and nothing else, and keeps users unique |
| Leaderboard.RefreshSorted | quizzes/advanced-quiz-system.js:386-398 | on a sorted board the fresh row lands after the rows it does not rank above and before those it does |
| Leaderboard.RefreshIsInsert | quizzes/advanced-quiz-system.js:386-398 | on a sorted board a refresh is one insertion into the filtered board |
| Leaderboard.TopTen | quizzes/advanced-quiz-system.js:436 | the display shows the first min(10, n) rows, and on a sorted board no hidden row ranks above a shown one |
| Identity.Welcome | quizzes/advanced-quiz-system.js:118-129 | a new player's record is consistent, has zero totals and no history, and holds FIRST_QUIZ and nothing else, except under the name `guest`, which holds nothing |
| Identity.SignIn | quizzes/advanced-quiz-system.js:111-141 | a blank answer plays as the guest and leaves the table unchanged; otherwise the trimmed name plays and has a record; the table gains at most that name, and every other user's record is unchanged |
| Identity.SignInAs | quizzes/advanced-quiz-system.js:114-138 | the same for a trimmed name; a consistent table stays consistent |
| Identity.NewPlayer | quizzes/advanced-quiz-system.js:117-129 | a new name gets zero totals, zero average and no history, and holds FIRST_QUIZ iff the name is not `guest`, and no other key |
| Identity.ReturningPlayer | quizzes/advanced-quiz-system.js:130-131 | a known name changes only its record's time of last activity |
| Identity.SignInIgnoresPadding | quizzes/advanced-quiz-system.js:114-115 | a name padded with white space signs in exactly like the bare name |
| Identity.SignInTwice | quizzes/advanced-quiz-system.js:117-131 | signing in again with the same name creates nothing and only restamps the time of last activity |
| Identity.GreetingAsWritten | quizzes/advanced-quiz-system.js:117-133 | as written, a name is greeted as new iff it is neither an own key of the table nor a member every object inherits; a crash happens only for names without a record |
| Identity.Greeting | quizzes/advanced-quiz-system.js:117 | with own-key lookup, sign-in never crashes and a name is greeted as returning iff it has a record |
| Identity.InheritedNameCrashes | quizzes/advanced-quiz-system.js:117-133 | a first-time player called `toString` crashes sign-in as written, and is created with own-key lookup |
| Identity.GreetingsAgreeElsewhere | quizzes/advanced-quiz-system.js:117 | for every other name both lookups agree |
| Identity.InheritedNameSignsIn | quizzes/advanced-quiz-system.js:114-129 | with own-key lookup, `toString` signs in as a new player with the welcome record |
| QuizCatalog.QuizzesForCategory | quizzes/advanced-quiz-system.js:227-253 | each of the four categories lists three quizzes, and any other name none (names every object inherits are left out) |
| QuizCatalog.CategoryShape | quizzes/advanced-quiz-system.js:229-252 | a name other than the four categories lists nothing (names every object inherits are left out); every listed quiz has an id and, for a bank without empty question sets, questions |
| QuizCatalog.CategoryIdsDistinct | quizzes/advanced-quiz-system.js:229-250 | the twelve category quizzes have twelve different ids |
| QuizCatalog.WeeklyChallenge | quizzes/advanced-quiz-system.js:650-663 | a definition, not a promise: the weekly challenge has no id, so its attempts count toward no category quiz, and it has the weekly questions |
| QuizCatalog.TierFor | quizzes/advanced-quiz-system.js:684-687 | the tier is the highest one the average qualifies for: Expert from 90, Advanced from 75, Intermediate from 60, else Beginner |
| QuizCatalog.TierMonotone | quizzes/advanced-quiz-system.js:684-687 | a higher average never gives a lower tier |
| QuizCatalog.TierBoundaries | quizzes/advanced-quiz-system.js:684-687 | the bounds are inclusive: 90 is Expert and 89.9 Advanced, 75 Advanced and 74.9 Intermediate, 60 Intermediate and 59.9 Beginner |
| QuizCatalog.TierNamesDistinct | quizzes/advanced-quiz-system.js:684-687 | different tiers have different level names |
| QuizCatalog.AdaptiveQuestions | quizzes/advanced-quiz-system.js:690-699 | every level name gets one of the four first-quiz sets, and a non-empty one for a bank without empty sets |
| QuizCatalog.AdaptiveSetPerTier | quizzes/advanced-quiz-system.js:690-699 | each tier gets exactly one fixed question set, that of its category's first quiz; a level name that is no tier's gets the Beginner set (names every object inherits are left out) |
| QuizCatalog.AdaptiveQuiz | quizzes/advanced-quiz-system.js:666-677 | the adaptive quiz has no id, and has questions for a bank without empty sets |
| Menu.ParseMainChoice | quizzes/advanced-quiz-system.js:162-199 | a main-menu choice selects something iff it is exactly one of "1" to "10"; the k-th of "1" to "4" opens exactly the k-th category (beginner, intermediate, advanced, expert); the leaderboard, the achievements, the statistics, the weekly challenge, the adaptive quiz and exit are chosen exactly by "5" to "10" |
| Menu.Step | quizzes/advanced-quiz-system.js:162-224 | a quiz runs only from the main menu on "8" or "9", from a category menu (one of that category's quizzes), or from the retake prompt (the same quiz again) |
| Menu.WantsRetake | quizzes/advanced-quiz-system.js:348-349 | the lower-cased answer is "y" iff the answer is "y" or "Y" |
| Menu.AdaptiveChoice | quizzes/advanced-quiz-system.js:188-189 | the main menu's "9" runs the adaptive quiz at the tier given |
| Menu.CategoryOpens | quizzes/advanced-quiz-system.js:164-175 | the main menu's k-th of "1" to "4" opens the k-th category's menu |
| Menu.ViewChoices | quizzes/advanced-quiz-system.js:176-184 | the main menu's "5", "6" and "7" show the leaderboard, the achievements and the statistics |
| Menu.WeeklyChoice | quizzes/advanced-quiz-system.js:185-187 | the main menu's "8" runs the weekly challenge |
| Menu.ViewsReturn | quizzes/advanced-quiz-system.js:626-642 | the statistics and achievements views (and the leaderboard, which waits the same way at :446-447) return to the main menu on any next line |
| Menu.RetakeChoice | quizzes/advanced-quiz-system.js:348-353 | at the retake prompt "y" or "Y" runs the same quiz again and any other answer returns to the main menu |
| Menu.ParseCategoryChoice | quizzes/advanced-quiz-system.js:211-224 | exactly "0" goes back; a quiz is picked iff the input is not "0" and `parseInt` reads a number between 1 and the count, and then it is that number's quiz |
| Menu.PickByNumber | quizzes/advanced-quiz-system.js:211-220 | typing a listed quiz's number, with any leading white space, picks that quiz |
| Menu.PickRuns | quizzes/advanced-quiz-system.js:218-220 | a choice that picks the i-th quiz of a category runs that quiz |
| Menu.ExitOnlyOnTen | quizzes/advanced-quiz-system.js:191-194 | the program ends only from the main menu on "10" |
| Menu.InvalidChoiceRedisplays | quizzes/advanced-quiz-system.js:195-197 | any other main-menu input shows the main menu again |
| Menu.CategoryMoves | quizzes/advanced-quiz-system.js:211-224 | from a category menu an input goes back, asks again, or runs one of that category's quizzes, which has an id and questions |
| Menu.UnknownCategoryReprompts | quizzes/advanced-quiz-system.js:211-252 | a category name other than the four lists nothing, so every input but "0" asks again (names every object inherits are left out) |
| Menu.CategoryPick | quizzes/advanced-quiz-system.js:211-220 | typing n (1 to 3) in a known category runs its n-th quiz |
| Menu.RunsAreNonEmpty | quizzes/advanced-quiz-system.js:211-224 | every quiz a step runs has at least one question, so the score's division is defined |
| QuizEngine.GrantAllTo | quizzes/advanced-quiz-system.js:403-423 | grants keep the table's names, leave the table unchanged for the guest and before sign-in, and never touch another user's record |
| QuizEngine.GrantAllToAppend | quizzes/advanced-quiz-system.js:403-423 | granting two series of keys in turn equals granting their concatenation |
| QuizEngine.GrantKeepsStore | quizzes/advanced-quiz-system.js:403-423 | grants keep both documents consistent |
| QuizEngine.TouchKeepsStore | quizzes/advanced-quiz-system.js:131 | restamping the time of last activity keeps both documents consistent |
| QuizEngine.WelcomeGrant | quizzes/advanced-quiz-system.js:118-129 | the welcome grant turns a fresh record into the welcome record |
| QuizEngine.BoardAfterRefresh | quizzes/advanced-quiz-system.js:377-398 | refreshing the row of the user whose record changed makes the board consistent with the new table |
| QuizEngine.CountingStep | quizzes/advanced-quiz-system.js:270-279 | one more verdict adds one to the count iff it is right, extends or resets the streak, and requests the new streak's milestone |
| QuizEngine.QuestionStep | quizzes/advanced-quiz-system.js:266-279 | one loop step takes the count, streak and grants of the first i verdicts to those of the first i + 1 |
| QuizEngine.AttemptEffect | quizzes/advanced-quiz-system.js:255-369 | the streak grants, the result grants and the save together make a named player's record `AfterAttempt` of the old one and touch no other record |
| QuizEngine.QuizSystem.FirstRun | quizzes/advanced-quiz-system.js:43-72 | with no stored documents the engine starts with no users, an empty board, nobody signed in and zero counters, and is consistent |
| QuizEngine.QuizSystem.Resume | quizzes/advanced-quiz-system.js:43-72 | started from consistent stored documents, the engine holds them and is consistent |
| QuizEngine.QuizSystem.GrantAchievement | quizzes/advanced-quiz-system.js:403-429 | the table becomes `GrantAllTo` of the old one with the single key: the current player's achievements gain the key if it is defined and not yet held; the guest and everyone before sign-in leave the table unchanged; no other record changes |
| QuizEngine.QuizSystem.GetUserInfo | quizzes/advanced-quiz-system.js:111-141 | the player and the table become those `SignIn` gives; the board is unchanged and the documents stay consistent |
| QuizEngine.QuizSystem.Register | quizzes/advanced-quiz-system.js:117-129 | a new name becomes the player with the welcome record filed under it |
| QuizEngine.QuizSystem.Revisit | quizzes/advanced-quiz-system.js:130-131 | a known name becomes the player and only its time of last activity changes |
| QuizEngine.QuizSystem.UpdateLeaderboard | quizzes/advanced-quiz-system.js:377-401 | the board becomes `Refresh` of the old board with the player's current row, and is consistent with the table again |
| QuizEngine.QuizSystem.SaveQuizProgress | quizzes/advanced-quiz-system.js:356-375 | the player's record becomes `RecordAttempt` of the old one with this attempt, no other record changes, the board is refreshed, and the counters are unchanged |
| QuizEngine.QuizSystem.ShowQuizResults | quizzes/advanced-quiz-system.js:321-346 | the score is `Score(correct, total)` and the grade `GradeFor(score)`; PERFECT_SCORE and SPEED_DEMON are granted as `ResultRequests` says; a named player's attempt is then saved, and the guest's table and board are left as they were |
| QuizEngine.QuizSystem.GrantResultAchievements | quizzes/advanced-quiz-system.js:329-331 | the table becomes the grants of PERFECT_SCORE for a score of 100, then SPEED_DEMON for at least 10 questions in under 300 seconds |
| QuizEngine.QuizSystem.StartQuiz | quizzes/advanced-quiz-system.js:255-286 | a whole quiz: the counters hold the count of right answers and the final streak; the score is `AttemptScore` and the grade its grade; a named player's record becomes `AfterAttempt` of the old one and the board is refreshed with it; the guest's table and board are unchanged |
| QuizEngine.QuizSystem.AskQuestions | quizzes/advanced-quiz-system.js:266-280 | after the loop the count is the number of right answers, the streak the final run of right answers, and the table has the streak grants made; the documents stay consistent |
| QuizEngine.QuizSystem.GradeAnswers | quizzes/advanced-quiz-system.js:266-280 | the same loop, proved with its invariant: after i questions the counters and grants are those of the first i verdicts |
| QuizEngine.QuizSystem.CountAnswer | quizzes/advanced-quiz-system.js:268-279 | one verdict: a right answer adds one to the count and the streak and requests the streak's milestone; a wrong one resets the streak |
| QuizEngine.QuizSystem.AnnounceStreak | quizzes/advanced-quiz-system.js:274-276 | STREAK_5 is requested at streak 5 and STREAK_10 at 10, and nothing else |
| QuizEngine.QuizSystem.GetUserQuizProgress | quizzes/advanced-quiz-system.js:589-599 | nothing for the guest or before sign-in; otherwise nothing iff the player never attempted the quiz, else the best score, reached by one attempt and exceeded by none; for a named player it is `Progress.QuizProgress` of the player's history |
| QuizEngine.QuizSystem.GetUserSkillLevel | quizzes/advanced-quiz-system.js:680-688 | Beginner for the guest; otherwise the highest tier the player's average qualifies for |
| QuizEngine.QuizSystem.StartAdaptiveQuiz | quizzes/advanced-quiz-system.js:666-678 | the quiz played is `AdaptiveQuiz` at the player's `GetUserSkillLevel` (the average's tier, Beginner for the guest), which is exactly the quiz the main menu's "9" runs; score, grade, right-answer count, streak and time, the named player's record and the refreshed board are exactly as `StartQuiz` states, and the guest's table and board stay unchanged |

## Left out

- Terminal I/O is left out. This covers the readline prompts, console output,
  the banner, the main-menu, leaderboard, achievements and statistics views,
  and the question display. The player's answers are inputs: the typed name,
  one string per question, and menu lines fed to `Menu.Step`.
- File I/O is left out: loading and saving the three JSON documents and
  creating directories. The stored users table and leaderboard are the class's
  fields. `QuizEngine.QuizSystem.Resume` requires stored documents to be
  consistent, as this program writes them; hand-edited files are not modelled.
  The achievements document is loaded but never used, so it is not modelled.
- Clocks and delays are left out: `Date.now`, ISO timestamps and the 1.5 s
  pause. Timestamps are opaque integers passed in. The seconds a quiz took are
  a parameter of `StartQuiz`, so `Math.round` of the elapsed time is not
  modelled.
- The question-bank contents are static data. They are taken as a
  `QuestionBank` parameter. `BankOk` (no empty set) is assumed wherever a
  non-empty quiz matters.
- Quizzes with no questions are excluded by precondition. The code divides by
  the question count with no guard; every shipped question set is non-empty.
- Floating point is left out. The average is an exact `real`. The
  `toFixed`/`padStart` formatting of the views is not modelled.
- Grading.Score: the program computes `Math.round((correct / total) * 100)` on
  doubles, and the model on exact rationals, with halves going up. Where the
  exact value ends in .5 but the double lands just below it, the model rounds
  up and the program down: 23 right out of 40 gives 58 in the model, 57 in the
  program. At a grade threshold or at 100 such a half needs a multiple of 200
  questions (`Grading.HalfBelowThreshold`), and every question set in the
  source is far smaller. So grades and PERFECT_SCORE are unaffected there.
- Looking up ACHIEVEMENTS (line 406), the category table (line 252) and the
  adaptive question sets (line 698) by a name that every JavaScript object
  inherits, such as `toString` or `constructor`, is not modelled. The program
  would find a function there, not "nothing". The model treats such a name
  like any unknown one. Every call site passes one of the literal names, so the
  program never makes such a lookup.
- DOCKER_MASTER, YAML_GURU and COMEBACK_KID are in the catalog, but nothing
  requests them, so no rule grants them.
- The "Best streak" line prints the final streak, so no maximum-streak
  property is stated.
- JsText.FirstUpperUnit: upper-casing is exact for ASCII letters and for the
  non-ASCII characters whose upper case begins with an ASCII letter. Every
  other non-ASCII character keeps its own code. This differs from JavaScript
  only for letters whose upper case is another non-ASCII letter, and both codes
  are then at least 128, so no answer to a question with at most 26 options is
  graded differently.
- QuizEngine.QuizSystem.ShowQuizResults: requires a signed-in player and at
  most as many right answers as questions. The program only reaches it from the
  question loop after sign-in.
- QuizEngine.QuizSystem.StartQuiz: requires a signed-in player. Every menu
  path runs a quiz after sign-in.
- QuizEngine.QuizSystem.GetUserSkillLevel: requires a signed-in player. Before
  sign-in the code would read a field of a missing record, but no menu path
  leads there.
- QuizEngine.QuizSystem.GetUserQuizProgress and
  QuizEngine.QuizSystem.GetUserSkillLevel require `Valid()`, so that a named
  player has a record. The methods keep that invariant throughout.
- Some source methods are split across several model members, for
  verification only, with no behaviour of their own:
  - `getUserInfo` into `Register` and `Revisit`;
  - the `startQuiz` loop into `AskQuestions`, `GradeAnswers`, `CountAnswer`
    and `AnnounceStreak`;
  - the grants of `showQuizResults` into `GrantResultAchievements`.
- The in-place `sort` of the leaderboard is modelled as reassigning a `seq`
  field with a stable insertion sort. JavaScript's `Array.prototype.sort` is
  stable, so the order is the same. Aliasing of the array is not modelled.
- Menu dispatch is a transition function, `Menu.Step`, on a `Screen` value.
  The program's chain of awaited calls is not modelled, so unbounded recursion
  depth and stack use are out of scope.
- The retake prompt's `toLowerCase` is modelled on ASCII letters only. No
  other character lower-cases to `y`, so `Menu.WantsRetake` is exact.
- The other directories of the repository are left out: an HTTP server, a log
  generator and a message producer, none of which is part of the quiz engine.

## Findings

| source | as written | input that shows it | evidently intended | confidence | as-written member | corrected member |
|---|---|---|---|---|---|---|
| quizzes/advanced-quiz-system.js:117-133 | `!this.users[name]` also finds the members every plain object inherits. A first-time player with such a name is greeted as returning, and `averageScore.toFixed` of an undefined value throws before any record is created | typing `toString` (or `constructor`, `valueOf`, ...) as a new player's name | only names with a stored record count as known, so such a name gets a new record like any other | not executed | Identity.InheritedNameCrashes | Identity.InheritedNameSignsIn |
