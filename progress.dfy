/** A user's record and what one attempt does to it: the history it appends,
    the totals and average it updates, the achievements it grants, and the
    per-quiz progress (best score, attempt count) read back from the history. */
module Progress {

  import opened Wrappers
  import opened QuizData
  import opened Achievements
  import opened Grading

  /** The sum of the scores in a history. */
  function ScoreSum(h: seq<AttemptRecord>): int {
    if h == [] then 0 else ScoreSum(h[..|h| - 1]) + h[|h| - 1].score
  }

  /** The stored average agrees with the stored totals (0 before any attempt). */
  predicate AverageConsistent(u: UserRecord) {
    if u.totalQuizzes == 0 then u.averageScore == 0.0
    else u.averageScore * (u.totalQuizzes as real) == u.totalScore as real
  }

  /** The invariant of a user record: the count is the length of the history,
      the total is the sum of its scores, the average is total over count, and
      achievement keys are distinct catalog keys. */
  predicate RecordOk(u: UserRecord) {
    && u.totalQuizzes == |u.quizHistory|
    && u.totalScore == ScoreSum(u.quizHistory)
    && AverageConsistent(u)
    && KeysDistinct(u.achievements)
    && KeysKnown(u.achievements)
  }

  /** The record a first login creates: zero totals, no achievements, no history. */
  function NewUser(name: string, now: Timestamp): (u: UserRecord)
    ensures RecordOk(u) && u.name == name
    ensures u.totalScore == 0 && u.totalQuizzes == 0 && u.averageScore == 0.0
    ensures u.achievements == [] && u.quizHistory == []
  {
    UserRecord(name, 0, 0, 0.0, [], [], now, now)
  }

  /** `saveQuizProgress` on a record: the attempt is appended at the end of the
      history, the count goes up by one and the total by the score, and the
      average is recomputed, so that average times count is the total again. */
  function RecordAttempt(u: UserRecord, a: AttemptRecord): (r: UserRecord)
    ensures r.quizHistory == u.quizHistory + [a]
    ensures r.totalQuizzes == u.totalQuizzes + 1 && r.totalScore == u.totalScore + a.score
    ensures r.averageScore * (r.totalQuizzes as real) == r.totalScore as real
    ensures r.name == u.name && r.achievements == u.achievements
    ensures r.joinDate == u.joinDate && r.lastActive == u.lastActive
    ensures RecordOk(u) ==> RecordOk(r)
  {
    var count := u.totalQuizzes + 1;
    var total := u.totalScore + a.score;
    var h := u.quizHistory + [a];
    assert h[..|h| - 1] == u.quizHistory;
    u.(quizHistory := h, totalQuizzes := count, totalScore := total,
       averageScore := total as real / count as real)
  }

  /** In a consistent record the average is the mean of the history's scores. */
  lemma AverageIsMean(u: UserRecord)
    requires RecordOk(u) && u.quizHistory != []
    ensures u.averageScore == ScoreSum(u.quizHistory) as real / |u.quizHistory| as real
  {
  }

  /** The score a run of answers earns on a quiz. */
  function AttemptScore(quiz: QuizDef, answers: seq<string>): (score: nat)
    requires |quiz.questions| > 0 && |answers| == |quiz.questions|
    ensures score <= 100
  {
    Score(CountCorrect(Results(quiz.questions, answers)), |quiz.questions|)
  }

  /** The attempt record a finished quiz produces. */
  function AttemptOf(quiz: QuizDef, answers: seq<string>, elapsed: nat, now: Timestamp): (a: AttemptRecord)
    requires |quiz.questions| > 0 && |answers| == |quiz.questions|
    ensures 0 <= a.score <= 100 && a.correctAnswers <= a.totalQuestions == |quiz.questions|
  {
    var correct := CountCorrect(Results(quiz.questions, answers));
    AttemptRecord(quiz.id, AttemptScore(quiz, answers), elapsed, now, correct, |quiz.questions|)
  }

  const PerfectScore: string := "PERFECT_SCORE"
  const SpeedDemon: string := "SPEED_DEMON"

  /** The grants `showQuizResults` requests: a perfect score, and finishing a
      quiz of at least ten questions in under five minutes. */
  function ResultRequests(score: int, time: int, questions: nat): (keys: seq<string>)
    ensures PerfectScore in keys <==> score == 100
    ensures SpeedDemon in keys <==> time < 300 && questions >= 10
    ensures forall k :: k in keys ==> k == PerfectScore || k == SpeedDemon
  {
    (if score == 100 then [PerfectScore] else [])
    + (if time < 300 && questions >= 10 then [SpeedDemon] else [])
  }

  /** Everything one attempt requests, in the order the quiz asks for it. */
  function AttemptRequests(quiz: QuizDef, answers: seq<string>, elapsed: nat): seq<string>
    requires |quiz.questions| > 0 && |answers| == |quiz.questions|
  {
    StreakRequests(Results(quiz.questions, answers))
    + ResultRequests(AttemptScore(quiz, answers), elapsed, |quiz.questions|)
  }

  /** A named user's record after one attempt: the grants requested during
      and after the quiz, then the attempt recorded. */
  function AfterAttempt(u: UserRecord, quiz: QuizDef, answers: seq<string>, elapsed: nat, now: Timestamp): (r: UserRecord)
    requires |quiz.questions| > 0 && |answers| == |quiz.questions|
    ensures r.quizHistory == u.quizHistory + [AttemptOf(quiz, answers, elapsed, now)]
    ensures RecordOk(u) ==> RecordOk(r)
  {
    var achs := GrantAll(u.achievements, AttemptRequests(quiz, answers, elapsed), now);
    WithAchievementsOk(u, achs);
    RecordAttempt(u.(achievements := achs), AttemptOf(quiz, answers, elapsed, now))
  }

  /** Replacing the achievements of a consistent record by a list of distinct
      catalog keys keeps it consistent. */
  lemma WithAchievementsOk(u: UserRecord, achs: seq<AchievementRecord>)
    ensures RecordOk(u) && KeysDistinct(achs) && KeysKnown(achs) ==> RecordOk(u.(achievements := achs))
  {
  }

  /** The achievements an attempt earns. */
  predicate EarnedBy(key: string, results: seq<bool>, score: int, elapsed: int, questions: nat) {
    || (key == Streak5 && HasRun(results, 5))
    || (key == Streak10 && HasRun(results, 10))
    || (key == PerfectScore && score == 100)
    || (key == SpeedDemon && elapsed < 300 && questions >= 10)
  }

  /** After an attempt a user holds exactly the achievements held before plus
      those the attempt earns: five or ten right answers in a row, a score of
      100, or at least ten questions in under 300 seconds. */
  lemma AttemptAchievements(u: UserRecord, quiz: QuizDef, answers: seq<string>, elapsed: nat, now: Timestamp, key: string)
    requires |quiz.questions| > 0 && |answers| == |quiz.questions|
    ensures
      var results := Results(quiz.questions, answers);
      var a := AttemptOf(quiz, answers, elapsed, now);
      (HasKey(AfterAttempt(u, quiz, answers, elapsed, now).achievements, key)
       <==> HasKey(u.achievements, key) || EarnedBy(key, results, a.score, elapsed, |quiz.questions|))
  {
    var results := Results(quiz.questions, answers);
    var a := AttemptOf(quiz, answers, elapsed, now);
    var requests := AttemptRequests(quiz, answers, elapsed);
    assert requests == StreakRequests(results) + ResultRequests(a.score, elapsed, |quiz.questions|);
    assert AfterAttempt(u, quiz, answers, elapsed, now).achievements == GrantAll(u.achievements, requests, now);
    RequestedIffEarned(results, a.score, elapsed, |quiz.questions|, key);
  }

  /** A catalog key is requested during or after a quiz exactly when the
      attempt earns it. */
  lemma RequestedIffEarned(results: seq<bool>, score: int, elapsed: int, questions: nat, key: string)
    ensures key in StreakRequests(results) + ResultRequests(score, elapsed, questions) && key in CatalogKeys
      <==> EarnedBy(key, results, score, elapsed, questions)
  {
    StreakRequestedIffRun(results, 5);
    StreakRequestedIffRun(results, 10);
  }

  // ------------------------------------------------------------- per quiz

  /** What the category listing shows for a quiz: the best score and the
      number of attempts. */
  datatype QuizProgressInfo = QuizProgressInfo(bestScore: int, attempts: nat)

  /** The attempts of one quiz, in history order: each of them exactly as
      many times as the history holds it, and nothing else. */
  function AttemptsOf(h: seq<AttemptRecord>, id: string): (r: seq<AttemptRecord>)
    ensures |r| <= |h|
    ensures forall a :: a in r <==> a in h && a.quizId == Some(id)
    ensures forall a :: multiset(r)[a] == (if a.quizId == Some(id) then multiset(h)[a] else 0)
  {
    if h == [] then []
    else
      var prior := AttemptsOf(h[..|h| - 1], id);
      assert h == h[..|h| - 1] + [h[|h| - 1]];
      assert multiset(h) == multiset(h[..|h| - 1]) + multiset{h[|h| - 1]};
      if h[|h| - 1].quizId == Some(id) then prior + [h[|h| - 1]] else prior
  }

  /** The highest score among some attempts: reached by one of them and not
      exceeded by any. */
  function BestScore(s: seq<AttemptRecord>): (b: int)
    requires s != []
    ensures exists i :: 0 <= i < |s| && s[i].score == b
    ensures forall i :: 0 <= i < |s| ==> s[i].score <= b
  {
    if |s| == 1 then s[0].score
    else
      var b := BestScore(s[..|s| - 1]);
      if s[|s| - 1].score > b then s[|s| - 1].score else b
  }

  /** `getUserQuizProgress` on a history: nothing when the quiz was never
      attempted, and otherwise the best score over its attempts (reached by one
      of them, exceeded by none) and how many there were. */
  function QuizProgress(h: seq<AttemptRecord>, id: string): (p: Option<QuizProgressInfo>)
    ensures p.None? <==> forall a :: a in h ==> a.quizId != Some(id)
    ensures p.Some? ==> 1 <= p.value.attempts <= |h|
    ensures p.Some? ==> exists a :: a in h && a.quizId == Some(id) && a.score == p.value.bestScore
    ensures p.Some? ==> forall a :: a in h && a.quizId == Some(id) ==> a.score <= p.value.bestScore
  {
    var attempts := AttemptsOf(h, id);
    if attempts == [] then None
    else
      var b := BestScore(attempts);
      assert exists i :: 0 <= i < |attempts| && attempts[i].score == b;
      assert forall a :: a in attempts ==> a.score <= b;
      Some(QuizProgressInfo(b, |attempts|))
  }

  /** Recording an attempt of a quiz adds one to that quiz's attempt count and
      raises its best score to the new score if that is higher. */
  lemma {:induction false} ProgressAfterAttempt(h: seq<AttemptRecord>, a: AttemptRecord, id: string)
    requires a.quizId == Some(id)
    ensures QuizProgress(h + [a], id).Some?
    ensures QuizProgress(h + [a], id).value.attempts ==
      (if QuizProgress(h, id).Some? then QuizProgress(h, id).value.attempts else 0) + 1
    ensures QuizProgress(h + [a], id).value.bestScore ==
      (if QuizProgress(h, id).Some? && QuizProgress(h, id).value.bestScore > a.score
       then QuizProgress(h, id).value.bestScore else a.score)
  {
    var h' := h + [a];
    assert h'[..|h'| - 1] == h;
    var before := AttemptsOf(h, id);
    var after := AttemptsOf(h', id);
    assert after == before + [a];
    if before != [] {
      assert after[..|after| - 1] == before;
    }
  }

  /** Recording an attempt of another quiz leaves a quiz's progress as it was. */
  lemma {:induction false} ProgressOtherQuiz(h: seq<AttemptRecord>, a: AttemptRecord, id: string)
    requires a.quizId != Some(id)
    ensures QuizProgress(h + [a], id) == QuizProgress(h, id)
  {
    var h' := h + [a];
    assert h'[..|h'| - 1] == h;
    assert AttemptsOf(h', id) == AttemptsOf(h, id);
  }
}
