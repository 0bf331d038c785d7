/** The records the quiz engine keeps: questions and quizzes (read-only input),
    quiz attempts, earned achievements, user records and leaderboard entries,
    and the static achievement catalog. */
module QuizData {

  import opened Wrappers

  /** A clock reading (an ISO-8601 timestamp in the program); never inspected. */
  type Timestamp = int

  /** The reserved identity of a player who gave no name. */
  const Guest: string := "guest"

  /** One multiple-choice question: `correct` is the 0-based index of the right
      option (option A is 0). */
  datatype Question = Question(text: string, options: seq<string>, correct: int)

  /** A quiz; the weekly challenge and the adaptive quiz carry no id. */
  datatype QuizDef = QuizDef(id: Option<string>, title: string, questions: seq<Question>)

  /** One completed attempt, appended to its user's history and never changed. */
  datatype AttemptRecord = AttemptRecord(
    quizId: Option<string>,
    score: int,
    time: int,
    date: Timestamp,
    correctAnswers: nat,
    totalQuestions: nat)

  /** A catalog entry: what an achievement is called and what it is worth. */
  datatype AchievementDef = AchievementDef(name: string, description: string, points: nat)

  /** An achievement a user has earned: the catalog entry copied under its key. */
  datatype AchievementRecord = AchievementRecord(
    key: string,
    name: string,
    description: string,
    points: nat,
    dateEarned: Timestamp)

  /** A user's persisted record; `averageScore` is stored beside the totals it
      is computed from. */
  datatype UserRecord = UserRecord(
    name: string,
    totalScore: int,
    totalQuizzes: nat,
    averageScore: real,
    achievements: seq<AchievementRecord>,
    quizHistory: seq<AttemptRecord>,
    joinDate: Timestamp,
    lastActive: Timestamp)

  /** A leaderboard row: a copy of a user's totals and achievement count. */
  datatype Entry = Entry(
    username: string,
    totalScore: int,
    averageScore: real,
    totalQuizzes: nat,
    achievements: nat)

  /** The keys the achievement catalog defines. */
  const CatalogKeys: set<string> := {
    "FIRST_QUIZ", "PERFECT_SCORE", "STREAK_5", "STREAK_10",
    "DOCKER_MASTER", "YAML_GURU", "SPEED_DEMON", "COMEBACK_KID"
  }

  /** The catalog entry of a defined key. */
  function Definition(key: string): AchievementDef
    requires key in CatalogKeys
  {
    if key == "FIRST_QUIZ" then AchievementDef("First Steps", "Completed your first quiz", 10)
    else if key == "PERFECT_SCORE" then AchievementDef("Perfectionist", "Got 100% on a quiz", 50)
    else if key == "STREAK_5" then AchievementDef("On Fire", "5 correct answers in a row", 25)
    else if key == "STREAK_10" then AchievementDef("Unstoppable", "10 correct answers in a row", 75)
    else if key == "DOCKER_MASTER" then AchievementDef("Docker Master", "Completed all Docker quizzes", 100)
    else if key == "YAML_GURU" then AchievementDef("YAML Guru", "Completed all YAML quizzes", 100)
    else if key == "SPEED_DEMON" then AchievementDef("Speed Demon", "Answered 10 questions in under 5 minutes", 30)
    else AchievementDef("Comeback Kid", "Improved score by 50% on retake", 40)
  }
}
