/** The quiz engine's state: the users table, the leaderboard, who is playing
    and the counters of the quiz in progress. Its methods change that state as
    the program's methods do, and each states the new state through the
    functions of the other modules, whose properties are proved there. */
module QuizEngine {

  import opened Wrappers
  import opened QuizData
  import opened Achievements
  import opened Grading
  import opened Progress
  import opened Leaderboard
  import opened QuizCatalog
  import opened Identity
  import opened JsText
  import opened Menu

  // -------------------------------------------------- the stored documents

  /** A leaderboard row shows its user's current totals and average, and no
      more achievements than the user holds (the count is refreshed with the
      totals, so grants made since the user's last attempt are not shown yet). */
  predicate MirrorsRecord(e: Entry, u: UserRecord) {
    && e.totalScore == u.totalScore
    && e.averageScore == u.averageScore
    && e.totalQuizzes == u.totalQuizzes
    && e.achievements <= |u.achievements|
  }

  predicate Listed(board: seq<Entry>, name: string) {
    exists i | 0 <= i < |board| :: board[i].username == name
  }

  /** The leaderboard is sorted, has one row per user, every row mirrors the
      record of a known user, and every user with an attempt has a row. */
  predicate BoardOk(board: seq<Entry>, users: map<string, UserRecord>) {
    && Sorted(board)
    && UniqueNames(board)
    && (forall i :: 0 <= i < |board| ==> board[i].username in users && MirrorsRecord(board[i], users[board[i].username]))
    && (forall n :: n in users && users[n].totalQuizzes > 0 ==> Listed(board, n))
  }

  /** The two documents the program keeps agree with each other. */
  predicate StoreOk(users: map<string, UserRecord>, board: seq<Entry>) {
    UsersOk(users) && BoardOk(board, users)
  }

  /** Changing one record without touching its totals and without taking
      achievements away, or adding a record with no attempts, keeps the board
      consistent. */
  lemma BoardKeptOk(board: seq<Entry>, users: map<string, UserRecord>, name: string, r: UserRecord)
    requires BoardOk(board, users)
    requires name in users ==> && r.totalScore == users[name].totalScore
                               && r.averageScore == users[name].averageScore
                               && r.totalQuizzes == users[name].totalQuizzes
                               && |users[name].achievements| <= |r.achievements|
    requires name !in users ==> r.totalQuizzes == 0
    ensures BoardOk(board, users[name := r])
  {
    var users' := users[name := r];
    forall n | n in users' && users'[n].totalQuizzes > 0 ensures Listed(board, n) {
      assert n in users;
    }
  }

  /** The same for both documents, for a consistent record filed under its
      own name. */
  lemma StoreKeptOk(users: map<string, UserRecord>, board: seq<Entry>, name: string, r: UserRecord)
    requires StoreOk(users, board) && RecordOk(r) && r.name == name
    requires name in users ==> && r.totalScore == users[name].totalScore
                               && r.averageScore == users[name].averageScore
                               && r.totalQuizzes == users[name].totalQuizzes
                               && |users[name].achievements| <= |r.achievements|
    requires name !in users ==> r.totalQuizzes == 0
    ensures StoreOk(users[name := r], board)
  {
    BoardKeptOk(board, users, name, r);
  }

  /** Stamping a user's time of last activity keeps both documents consistent. */
  lemma TouchKeepsStore(users: map<string, UserRecord>, board: seq<Entry>, name: string, now: Timestamp)
    requires StoreOk(users, board) && name in users
    ensures StoreOk(users[name := users[name].(lastActive := now)], board)
  {
    var before := users[name];
    var u := before.(lastActive := now);
    assert RecordOk(before) && before.name == name;
    assert u.quizHistory == before.quizHistory && u.achievements == before.achievements;
    assert u.totalScore == before.totalScore && u.totalQuizzes == before.totalQuizzes;
    assert u.averageScore == before.averageScore;
    assert AverageConsistent(u) == AverageConsistent(before);
    StoreKeptOk(users, board, name, u);
  }

  /** Filing a consistent record under its own name keeps the table consistent. */
  lemma UsersKeptOk(users: map<string, UserRecord>, name: string, r: UserRecord)
    requires UsersOk(users) && RecordOk(r) && r.name == name
    ensures UsersOk(users[name := r])
  {
  }

  /** The welcome grant turns a new player's fresh record into `Welcome`. */
  lemma WelcomeGrant(users: map<string, UserRecord>, name: string, now: Timestamp)
    ensures GrantAllTo(users[name := NewUser(name, now)], Some(name), [FirstQuiz], now) == users[name := Welcome(name, now)]
  {
    GrantOne([], FirstQuiz, now);
    var start := NewUser(name, now);
    if name != Guest {
      assert GrantAllTo(users[name := start], Some(name), [FirstQuiz], now)
        == users[name := start][name := start.(achievements := Grant([], FirstQuiz, now))];
    }
  }

  /** Refreshing the row of a user whose record changed makes the board
      consistent with the new table. */
  lemma BoardAfterRefresh(board: seq<Entry>, before: map<string, UserRecord>, users: map<string, UserRecord>, name: string)
    requires BoardOk(board, before)
    requires name in users && users == before[name := users[name]]
    ensures BoardOk(Refresh(board, EntryFor(name, users[name])), users)
  {
    var e := EntryFor(name, users[name]);
    RefreshCorrect(board, e);
    RefreshedRowsMirror(board, before, users, name);
    RefreshedRowsCover(board, before, users, name);
  }

  /** After a refresh every row mirrors the current record of its user. */
  lemma RefreshedRowsMirror(board: seq<Entry>, before: map<string, UserRecord>, users: map<string, UserRecord>, name: string)
    requires BoardOk(board, before)
    requires name in users && users == before[name := users[name]]
    ensures var r := Refresh(board, EntryFor(name, users[name]));
      forall i :: 0 <= i < |r| ==> r[i].username in users && MirrorsRecord(r[i], users[r[i].username])
  {
    var e := EntryFor(name, users[name]);
    var r := Refresh(board, e);
    RefreshCorrect(board, e);
    forall i | 0 <= i < |r| ensures r[i].username in users && MirrorsRecord(r[i], users[r[i].username]) {
      assert r[i] in r;
      if r[i] != e {
        var k :| 0 <= k < |board| && board[k] == r[i];
      }
    }
  }

  /** After a refresh every user with an attempt still has a row. */
  lemma RefreshedRowsCover(board: seq<Entry>, before: map<string, UserRecord>, users: map<string, UserRecord>, name: string)
    requires BoardOk(board, before)
    requires name in users && users == before[name := users[name]]
    ensures forall n :: n in users && users[n].totalQuizzes > 0 ==> Listed(Refresh(board, EntryFor(name, users[name])), n)
  {
    var e := EntryFor(name, users[name]);
    var r := Refresh(board, e);
    RefreshCorrect(board, e);
    forall n | n in users && users[n].totalQuizzes > 0 ensures Listed(r, n) {
      if n == name {
        var k :| 0 <= k < |r| && r[k] == e;
      } else {
        var k :| 0 <= k < |board| && board[k].username == n;
        assert board[k] in r;
        var m :| 0 <= m < |r| && r[m] == board[k];
      }
    }
  }

  // ------------------------------------------- what grants and saves do

  /** Whether `user` names a player whose progress is kept: someone has
      signed in, under a name other than "guest". */
  predicate IsNamed(user: Option<string>) {
    user.Some? && user.value != Guest
  }

  /** The table after the grants requested for `keys` are made for `user`;
      nothing changes for the guest or before sign-in. */
  function GrantAllTo(users: map<string, UserRecord>, user: Option<string>, keys: seq<string>, now: Timestamp): (r: map<string, UserRecord>)
    ensures r.Keys == users.Keys
    ensures !IsNamed(user) ==> r == users
    ensures forall n :: n in users && Some(n) != user ==> r[n] == users[n]
  {
    if IsNamed(user) && user.value in users then
      var u := users[user.value];
      users[user.value := u.(achievements := GrantAll(u.achievements, keys, now))]
    else users
  }

  /** Granting one list of keys and then another is granting both in order. */
  lemma GrantAllToAppend(users: map<string, UserRecord>, user: Option<string>, first: seq<string>, second: seq<string>, now: Timestamp)
    ensures GrantAllTo(GrantAllTo(users, user, first, now), user, second, now) == GrantAllTo(users, user, first + second, now)
  {
    if IsNamed(user) && user.value in users {
      GrantAllAppend(users[user.value].achievements, first, second, now);
    }
  }

  /** One more verdict: the count goes up by one for a right answer, the
      streak goes up by one for a right answer and drops to zero for a wrong
      one, and the milestone of the new streak is requested. */
  lemma CountingStep(r: seq<bool>, i: nat)
    requires i < |r|
    ensures CountCorrect(r[..i + 1]) == CountCorrect(r[..i]) + (if r[i] then 1 else 0)
    ensures StreakAfter(r[..i + 1]) == if r[i] then StreakAfter(r[..i]) + 1 else 0
    ensures StreakRequests(r[..i + 1]) == StreakRequests(r[..i]) + Milestone(StreakAfter(r[..i + 1]))
  {
    assert r[..i + 1][..i] == r[..i];
  }

  /** The streak grants, then the result grants, then the save, make a named
      player's record `AfterAttempt` of the record the quiz started from. */
  lemma AttemptEffect(start: map<string, UserRecord>, name: string, quiz: QuizDef, answers: seq<string>, elapsed: nat, now: Timestamp)
    requires name in start && name != Guest
    requires |quiz.questions| > 0 && |answers| == |quiz.questions|
    ensures var results := Results(quiz.questions, answers);
      var score := AttemptScore(quiz, answers);
      var granted := GrantAllTo(GrantAllTo(start, Some(name), StreakRequests(results), now),
                                Some(name), ResultRequests(score, elapsed, |quiz.questions|), now);
      granted[name := RecordAttempt(granted[name],
        AttemptRecord(quiz.id, score, elapsed, now, CountCorrect(results), |quiz.questions|))]
      == start[name := AfterAttempt(start[name], quiz, answers, elapsed, now)]
  {
    var results := Results(quiz.questions, answers);
    var score := AttemptScore(quiz, answers);
    var attempt := AttemptRecord(quiz.id, score, elapsed, now, CountCorrect(results), |quiz.questions|);
    var first := StreakRequests(results);
    var second := ResultRequests(score, elapsed, |quiz.questions|);
    var u := start[name];
    var g := u.(achievements := GrantAll(GrantAll(u.achievements, first, now), second, now));
    GrantTwiceThenSet(start, name, first, second, now, RecordAttempt(g, attempt));
    AttemptSteps(u, quiz, answers, elapsed, now);
  }

  /** Granting two lists of keys to a named player and then replacing the
      player's record is replacing it outright; the granted record holds both
      lists' grants. */
  lemma GrantTwiceThenSet(users: map<string, UserRecord>, name: string, first: seq<string>, second: seq<string>,
                          now: Timestamp, r: UserRecord)
    requires name in users && name != Guest
    ensures var granted := GrantAllTo(GrantAllTo(users, Some(name), first, now), Some(name), second, now);
      && granted[name] == users[name].(achievements := GrantAll(GrantAll(users[name].achievements, first, now), second, now))
      && granted[name := r] == users[name := r]
  {
    var once := GrantAllTo(users, Some(name), first, now);
    GrantAllToNamed(users, name, first, now);
    GrantAllToNamed(once, name, second, now);
  }

  /** On one record: the streak grants, then the result grants, then the
      recorded attempt give `AfterAttempt`. */
  lemma AttemptSteps(u: UserRecord, quiz: QuizDef, answers: seq<string>, elapsed: nat, now: Timestamp)
    requires |quiz.questions| > 0 && |answers| == |quiz.questions|
    ensures var results := Results(quiz.questions, answers);
      var score := AttemptScore(quiz, answers);
      var g := u.(achievements := GrantAll(GrantAll(u.achievements, StreakRequests(results), now),
                                           ResultRequests(score, elapsed, |quiz.questions|), now));
      RecordAttempt(g, AttemptRecord(quiz.id, score, elapsed, now, CountCorrect(results), |quiz.questions|))
        == AfterAttempt(u, quiz, answers, elapsed, now)
  {
    var results := Results(quiz.questions, answers);
    var score := AttemptScore(quiz, answers);
    GrantAllAppend(u.achievements, StreakRequests(results), ResultRequests(score, elapsed, |quiz.questions|), now);
  }

  /** For a named player with a record, the grants change that record's
      achievements and nothing else. */
  lemma GrantAllToNamed(users: map<string, UserRecord>, name: string, keys: seq<string>, now: Timestamp)
    requires name in users && name != Guest
    ensures GrantAllTo(users, Some(name), keys, now)
      == users[name := users[name].(achievements := GrantAll(users[name].achievements, keys, now))]
  {
  }

  /** One step of the question loop: counting the next verdict, updating
      the streak and granting the new streak's milestone extend the count,
      the streak and the grants made so far to one more verdict. */
  lemma QuestionStep(start: map<string, UserRecord>, user: Option<string>, r: seq<bool>, i: nat,
                     count: nat, streak: nat, prior: map<string, UserRecord>,
                     count': nat, streak': nat, after: map<string, UserRecord>, now: Timestamp)
    requires i < |r|
    requires count == CountCorrect(r[..i]) && streak == StreakAfter(r[..i])
    requires prior == GrantAllTo(start, user, StreakRequests(r[..i]), now)
    requires count' == count + (if r[i] then 1 else 0)
    requires streak' == if r[i] then streak + 1 else 0
    requires after == GrantAllTo(prior, user, Milestone(streak'), now)
    ensures count' == CountCorrect(r[..i + 1]) && streak' == StreakAfter(r[..i + 1])
    ensures after == GrantAllTo(start, user, StreakRequests(r[..i + 1]), now)
  {
    CountingStep(r, i);
    GrantAllToAppend(start, user, StreakRequests(r[..i]), Milestone(streak'), now);
  }

  /** Granting no keys changes nothing. */
  lemma GrantNoneTo(users: map<string, UserRecord>, user: Option<string>, now: Timestamp)
    ensures GrantAllTo(users, user, [], now) == users
  {
    if IsNamed(user) && user.value in users {
      assert users[user.value].(achievements := users[user.value].achievements) == users[user.value];
    }
  }

  /** A single grant is a grant of a one-key list. */
  lemma GrantOne(achs: seq<AchievementRecord>, key: string, now: Timestamp)
    ensures GrantAll(achs, [key], now) == Grant(achs, key, now)
  {
    assert [key][..0] == [];
  }

  /** Grants keep both documents consistent: records only gain achievements,
      with distinct catalog keys, and their totals do not change. */
  lemma GrantKeepsStore(users: map<string, UserRecord>, board: seq<Entry>, user: Option<string>, keys: seq<string>, now: Timestamp)
    requires StoreOk(users, board)
    ensures StoreOk(GrantAllTo(users, user, keys, now), board)
  {
    if IsNamed(user) && user.value in users {
      var u := users[user.value];
      var achs := GrantAll(u.achievements, keys, now);
      WithAchievementsOk(u, achs);
      StoreKeptOk(users, board, user.value, u.(achievements := achs));
    }
  }

  // --------------------------------------------------------------- engine

  class QuizSystem {
    var users: map<string, UserRecord>
    var leaderboard: seq<Entry>
    /** `None` before sign-in; the guest plays as `Some(Guest)`. */
    var currentUser: Option<string>
    var currentQuiz: Option<QuizDef>
    var streak: nat
    var correctAnswers: nat
    /** Seconds the last quiz took. */
    var totalTime: int

    /** The documents agree, and a signed-in player other than the guest has
        a record. */
    predicate Valid()
      reads this
    {
      StoreOk(users, leaderboard) && Ready()
    }

    /** A signed-in player other than the guest has a record. */
    predicate Ready()
      reads this
    {
      IsNamed(currentUser) ==> currentUser.value in users
    }

    /** Who plays, and the quiz in progress with its counters. */
    function Session(): (Option<string>, Option<QuizDef>, nat, nat, int)
      reads this
    {
      (currentUser, currentQuiz, streak, correctAnswers, totalTime)
    }

    predicate Named()
      reads this
    {
      IsNamed(currentUser)
    }

    /** Start-up without stored documents: no users, an empty board. */
    constructor FirstRun()
      ensures Valid()
      ensures users == map[] && leaderboard == [] && currentUser == None && currentQuiz == None
      ensures streak == 0 && correctAnswers == 0 && totalTime == 0
    {
      users := map[];
      leaderboard := [];
      currentUser := None;
      currentQuiz := None;
      streak := 0;
      correctAnswers := 0;
      totalTime := 0;
    }

    /** Start-up from the stored documents, as this program last wrote them. */
    constructor Resume(storedUsers: map<string, UserRecord>, storedBoard: seq<Entry>)
      requires StoreOk(storedUsers, storedBoard)
      ensures Valid()
      ensures users == storedUsers && leaderboard == storedBoard && currentUser == None && currentQuiz == None
      ensures streak == 0 && correctAnswers == 0 && totalTime == 0
    {
      users := storedUsers;
      leaderboard := storedBoard;
      currentUser := None;
      currentQuiz := None;
      streak := 0;
      correctAnswers := 0;
      totalTime := 0;
    }

    /** `grantAchievement`: the current player's achievements become
        `Grant(achievements, key, now)`; the guest, and everyone before
        sign-in, is left alone. Nothing else changes, and the documents stay
        consistent (`GrantKeepsStore`). */
    method GrantAchievement(key: string, now: Timestamp)
      requires Ready()
      modifies this`users
      ensures Ready()
      ensures users == GrantAllTo(old(users), currentUser, [key], now)
    {
      if currentUser.None? || currentUser.value == Guest {
        return;
      }
      var name := currentUser.value;
      if key !in CatalogKeys {
        GrantOne(users[name].achievements, key, now);
        return;
      }
      var achs := users[name].achievements;
      if HasKey(achs, key) {
        GrantOne(achs, key, now);
        return;
      }
      var granted := achs + [Earned(key, now)];
      GrantOne(achs, key, now);
      assert granted == Grant(achs, key, now);
      users := users[name := users[name].(achievements := granted)];
    }

    /** `getUserInfo`: the player is whoever `SignIn` says, and the table is
        the one it gives; the board is unchanged. */
    method GetUserInfo(input: string, now: Timestamp)
      requires Valid()
      modifies this`users, this`currentUser
      ensures currentUser == Some(SignIn(old(users), input, now).user)
      ensures users == SignIn(old(users), input, now).users
      ensures Valid()
    {
      var name := Trim(input);
      assert SignIn(users, input, now) == SignInAs(users, name, now);
      if name != [] {
        if !Known(users, name) {
          Register(name, now);
        } else {
          Revisit(name, now);
        }
      } else {
        currentUser := Some(Guest);
      }
    }

    /** The new-player branch of `getUserInfo`: a fresh record is filed under
        the name, the name becomes the player, and the welcome grant is made. */
    method Register(name: string, now: Timestamp)
      requires Valid() && name != [] && name !in users
      modifies this`users, this`currentUser
      ensures currentUser == Some(name) && users == old(users)[name := Welcome(name, now)]
      ensures Valid()
    {
      var start := NewUser(name, now);
      WelcomeGrant(users, name, now);
      StoreKeptOk(users, leaderboard, name, Welcome(name, now));
      users := users[name := start];
      currentUser := Some(name);
      GrantAchievement(FirstQuiz, now);
    }

    /** The returning-player branch of `getUserInfo`: only the time of last
        activity changes, and the name becomes the player. */
    method Revisit(name: string, now: Timestamp)
      requires Valid() && name in users
      modifies this`users, this`currentUser
      ensures currentUser == Some(name) && users == old(users)[name := old(users)[name].(lastActive := now)]
      ensures Valid()
    {
      TouchKeepsStore(users, leaderboard, name, now);
      users := users[name := users[name].(lastActive := now)];
      currentUser := Some(name);
    }

    /** `updateLeaderboard`: the player's old row is dropped, a fresh row is
        appended and the board is re-sorted. `before` is the table the board
        was last consistent with, which differs from the current one at most
        in the player's record. */
    method UpdateLeaderboard(ghost before: map<string, UserRecord>)
      requires Named() && currentUser.value in users
      requires UsersOk(users) && BoardOk(leaderboard, before)
      requires users == before[currentUser.value := users[currentUser.value]]
      modifies this
      ensures users == old(users) && Session() == old(Session())
      ensures Valid()
      ensures leaderboard == Refresh(old(leaderboard), EntryFor(currentUser.value, users[currentUser.value]))
    {
      var name := currentUser.value;
      var entry := EntryFor(name, users[name]);
      BoardAfterRefresh(leaderboard, before, users, name);
      leaderboard := WithoutUser(leaderboard, name);
      leaderboard := leaderboard + [entry];
      leaderboard := SortEntries(leaderboard);
    }

    /** `saveQuizProgress`: the attempt is recorded on the player's record
        (`RecordAttempt`) and the player's row refreshed. */
    method SaveQuizProgress(quiz: QuizDef, score: int, now: Timestamp)
      requires Valid() && Named()
      modifies this
      ensures Session() == old(Session())
      ensures Valid()
      ensures var name := currentUser.value;
        users == old(users)[name := RecordAttempt(old(users)[name],
          AttemptRecord(quiz.id, score, totalTime, now, correctAnswers, |quiz.questions|))]
      ensures leaderboard == Refresh(old(leaderboard), EntryFor(currentUser.value, users[currentUser.value]))
    {
      var name := currentUser.value;
      var attempt := AttemptRecord(quiz.id, score, totalTime, now, correctAnswers, |quiz.questions|);
      ghost var before := users;
      var recorded := RecordAttempt(users[name], attempt);
      UsersKeptOk(users, name, recorded);
      users := users[name := recorded];
      UpdateLeaderboard(before);
    }

    /** `showQuizResults`: the score of the counted answers and its grade;
        PERFECT_SCORE and SPEED_DEMON are requested as `ResultRequests`
        says, and a named player's attempt is then saved. */
    method ShowQuizResults(quiz: QuizDef, now: Timestamp) returns (score: nat, grade: Grade)
      requires Valid() && currentUser.Some?
      requires |quiz.questions| > 0 && correctAnswers <= |quiz.questions|
      modifies this
      ensures currentUser == old(currentUser) && currentQuiz == old(currentQuiz)
      ensures streak == old(streak) && correctAnswers == old(correctAnswers) && totalTime == old(totalTime)
      ensures Valid()
      ensures score == Score(correctAnswers, |quiz.questions|) && grade == GradeFor(score)
      ensures var granted := GrantAllTo(old(users), currentUser, ResultRequests(score, totalTime, |quiz.questions|), now);
        if Named() then
          && users == granted[currentUser.value := RecordAttempt(granted[currentUser.value],
               AttemptRecord(quiz.id, score, totalTime, now, correctAnswers, |quiz.questions|))]
          && leaderboard == Refresh(old(leaderboard), EntryFor(currentUser.value, users[currentUser.value]))
        else users == granted && leaderboard == old(leaderboard)
    {
      score := Score(correctAnswers, |quiz.questions|);
      GrantResultAchievements(score, |quiz.questions|, now);
      if currentUser.value != Guest {
        SaveQuizProgress(quiz, score, now);
      }
      grade := GradeFor(score);
    }

    /** The grants of `showQuizResults`: PERFECT_SCORE for a score of 100,
        then SPEED_DEMON for at least ten questions in under 300 seconds. */
    method GrantResultAchievements(score: nat, questions: nat, now: Timestamp)
      requires Valid()
      modifies this`users
      ensures users == GrantAllTo(old(users), currentUser, ResultRequests(score, totalTime, questions), now)
      ensures Valid()
    {
      ghost var start := users;
      if score == 100 {
        GrantAchievement(PerfectScore, now);
      } else {
        GrantNoneTo(start, currentUser, now);
      }
      ghost var afterPerfect := users;
      if totalTime < 300 && questions >= 10 {
        GrantAchievement(SpeedDemon, now);
      } else {
        GrantNoneTo(afterPerfect, currentUser, now);
      }
      ghost var first: seq<string> := if score == 100 then [PerfectScore] else [];
      ghost var second: seq<string> := if totalTime < 300 && questions >= 10 then [SpeedDemon] else [];
      GrantAllToAppend(start, currentUser, first, second, now);
      GrantKeepsStore(start, leaderboard, currentUser, first + second, now);
    }

    /** `startQuiz` with the player's answers and the seconds the quiz took:
        the loop counts right answers and the streak and makes the streak
        grants; the results are then shown. A named player's record becomes
        `AfterAttempt` of the old one and the board is refreshed with it; the
        guest's table and board stay as they were. */
    method StartQuiz(quiz: QuizDef, answers: seq<string>, elapsed: nat, now: Timestamp) returns (score: nat, grade: Grade)
      requires Valid() && currentUser.Some?
      requires |quiz.questions| > 0 && |answers| == |quiz.questions|
      modifies this
      ensures Valid()
      ensures score == AttemptScore(quiz, answers) && grade == GradeFor(score)
      ensures correctAnswers == CountCorrect(Results(quiz.questions, answers))
      ensures streak == StreakAfter(Results(quiz.questions, answers))
      ensures totalTime == elapsed && currentQuiz == Some(quiz) && currentUser == old(currentUser)
      ensures Named() ==> var name := currentUser.value;
        && users == old(users)[name := AfterAttempt(old(users)[name], quiz, answers, elapsed, now)]
        && leaderboard == Refresh(old(leaderboard), EntryFor(name, users[name]))
      ensures !Named() ==> users == old(users) && leaderboard == old(leaderboard)
    {
      currentQuiz := Some(quiz);
      streak := 0;
      correctAnswers := 0;
      totalTime := 0;
      ghost var start := users;
      AskQuestions(quiz, answers, now);
      totalTime := elapsed;
      score, grade := ShowQuizResults(quiz, now);
      if Named() {
        AttemptEffect(start, currentUser.value, quiz, answers, elapsed, now);
      }
    }

    /** The question loop of `startQuiz`: each answer is graded; a right one
        adds to the count and the streak, and a streak of 5 or 10 requests
        its achievement; a wrong one resets the streak. */
    method AskQuestions(quiz: QuizDef, answers: seq<string>, now: Timestamp)
      requires Valid() && |answers| == |quiz.questions|
      requires streak == 0 && correctAnswers == 0
      modifies this`users, this`streak, this`correctAnswers
      ensures correctAnswers == CountCorrect(Results(quiz.questions, answers))
      ensures streak == StreakAfter(Results(quiz.questions, answers))
      ensures users == GrantAllTo(old(users), currentUser, StreakRequests(Results(quiz.questions, answers)), now)
      ensures Valid()
    {
      ghost var start := users;
      GradeAnswers(quiz, answers, now);
      GrantKeepsStore(start, leaderboard, currentUser, StreakRequests(Results(quiz.questions, answers)), now);
    }

    /** The loop of `AskQuestions`, which only needs the current player to
        have a record. */
    method GradeAnswers(quiz: QuizDef, answers: seq<string>, now: Timestamp)
      requires Ready() && |answers| == |quiz.questions|
      requires streak == 0 && correctAnswers == 0
      modifies this`users, this`streak, this`correctAnswers
      ensures Ready()
      ensures correctAnswers == CountCorrect(Results(quiz.questions, answers))
      ensures streak == StreakAfter(Results(quiz.questions, answers))
      ensures users == GrantAllTo(old(users), currentUser, StreakRequests(Results(quiz.questions, answers)), now)
    {
      ghost var results := Results(quiz.questions, answers);
      ghost var start := users;
      GrantNoneTo(start, currentUser, now);
      var i := 0;
      while i < |quiz.questions|
        invariant 0 <= i <= |quiz.questions| && Ready()
        invariant Graded(start, results, i, now)
      {
        var isCorrect := IsCorrect(answers[i], quiz.questions[i]);
        CountAnswer(start, results, i, isCorrect, now);
        i := i + 1;
      }
      assert results[..i] == results;
    }

    /** The counters and the users table once the first `i` verdicts have
        been counted, starting from the table `start`. */
    ghost predicate Graded(start: map<string, UserRecord>, results: seq<bool>, i: nat, now: Timestamp)
      requires i <= |results|
      reads this
    {
      && correctAnswers == CountCorrect(results[..i])
      && streak == StreakAfter(results[..i])
      && users == GrantAllTo(start, currentUser, StreakRequests(results[..i]), now)
    }

    /** One verdict of the question loop: a right answer adds to the count
        and the streak and requests the streak's milestone; a wrong one resets
        the streak. Counting verdict `i` extends the counts of the verdicts
        before it. */
    method CountAnswer(ghost start: map<string, UserRecord>, ghost results: seq<bool>, ghost i: nat, isCorrect: bool, now: Timestamp)
      requires Ready() && i < |results| && isCorrect == results[i]
      requires Graded(start, results, i, now)
      modifies this`users, this`streak, this`correctAnswers
      ensures Ready()
      ensures correctAnswers == old(correctAnswers) + (if isCorrect then 1 else 0)
      ensures streak == if isCorrect then old(streak) + 1 else 0
      ensures users == GrantAllTo(old(users), currentUser, Milestone(streak), now)
      ensures Graded(start, results, i + 1, now)
    {
      ghost var prior := users;
      if isCorrect {
        correctAnswers := correctAnswers + 1;
        streak := streak + 1;
        AnnounceStreak(now);
      } else {
        streak := 0;
        GrantNoneTo(users, currentUser, now);
      }
      QuestionStep(start, currentUser, results, i, old(correctAnswers), old(streak), prior, correctAnswers, streak, users, now);
    }

    /** The streak checks of `startQuiz`: STREAK_5 is requested when the
        streak is 5 and STREAK_10 when it is 10. */
    method AnnounceStreak(now: Timestamp)
      requires Ready()
      modifies this`users
      ensures Ready()
      ensures users == GrantAllTo(old(users), currentUser, Milestone(streak), now)
    {
      if streak == 5 {
        GrantAchievement(Streak5, now);
      }
      if streak == 10 {
        GrantAchievement(Streak10, now);
      }
      if streak != 5 && streak != 10 {
        GrantNoneTo(users, currentUser, now);
      }
    }

    /** `getUserQuizProgress`: nothing for the guest or before sign-in, and
        otherwise the player's progress on the quiz: nothing if it was never
        attempted, else the best score (reached, never exceeded) and the
        number of attempts. */
    function GetUserQuizProgress(quizId: string): (p: Option<QuizProgressInfo>)
      reads this
      requires Valid()
      ensures !Named() ==> p.None?
      ensures Named() ==> var h := users[currentUser.value].quizHistory;
        && (p.None? <==> forall a :: a in h ==> a.quizId != Some(quizId))
        && (p.Some? ==> exists a :: a in h && a.quizId == Some(quizId) && a.score == p.value.bestScore)
        && (p.Some? ==> forall a :: a in h && a.quizId == Some(quizId) ==> a.score <= p.value.bestScore)
    ensures Named() ==> p == QuizProgress(users[currentUser.value].quizHistory, quizId)
    {
      if currentUser.None? || currentUser.value == Guest then None
      else QuizProgress(users[currentUser.value].quizHistory, quizId)
    }

    /** `startAdaptiveQuiz`: the quiz the main menu's "9" runs, built at the
        player's skill level (Beginner for the guest) and then played exactly
        as `startQuiz` plays it: counters, record and board as there, and the
        guest's table and board unchanged. */
    method StartAdaptiveQuiz(bank: QuestionBank, answers: seq<string>, elapsed: nat, now: Timestamp)
      returns (score: nat, grade: Grade)
      requires Valid() && currentUser.Some? && BankOk(bank)
      requires |answers| == |AdaptiveQuestions(bank, TierName(GetUserSkillLevel()))|
      modifies this
      ensures Valid()
      ensures var quiz := AdaptiveQuiz(bank, old(GetUserSkillLevel()));
        && Step(MainMenu, "9", bank, old(GetUserSkillLevel())) == Run(quiz)
        && currentQuiz == Some(quiz) && currentUser == old(currentUser)
        && score == AttemptScore(quiz, answers) && grade == GradeFor(score)
      ensures var quiz := AdaptiveQuiz(bank, old(GetUserSkillLevel()));
        && correctAnswers == CountCorrect(Results(quiz.questions, answers))
        && streak == StreakAfter(Results(quiz.questions, answers))
        && totalTime == elapsed
      ensures Named() ==> var quiz, name := AdaptiveQuiz(bank, old(GetUserSkillLevel())), currentUser.value;
        && users == old(users)[name := AfterAttempt(old(users)[name], quiz, answers, elapsed, now)]
        && leaderboard == Refresh(old(leaderboard), EntryFor(name, users[name]))
      ensures !Named() ==> users == old(users) && leaderboard == old(leaderboard)
    {
      var tier := GetUserSkillLevel();
      var quiz := AdaptiveQuiz(bank, tier);
      AdaptiveChoice(bank, tier);
      score, grade := StartQuiz(quiz, answers, elapsed, now);
    }

    /** `getUserSkillLevel`: Beginner for the guest, and otherwise the highest
        tier the player's average qualifies for. */
    function GetUserSkillLevel(): (t: Tier)
      reads this
      requires Valid() && currentUser.Some?
      ensures !Named() ==> t == Beginner
      ensures Named() ==> Qualifies(t, users[currentUser.value].averageScore)
      ensures Named() ==> forall h :: TierRank(h) > TierRank(t) ==> !Qualifies(h, users[currentUser.value].averageScore)
    {
      if currentUser.value == Guest then Beginner
      else TierFor(users[currentUser.value].averageScore)
    }
  }
}
