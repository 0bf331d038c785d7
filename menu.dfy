/** Menu dispatch as a transition function. The program moves between screens
    by awaiting the next line of input and calling the next screen's handler;
    here a screen is a value and each input line gives the next screen, or a
    quiz to run (after which the retake prompt is shown). */
module Menu {

  import opened Wrappers
  import opened JsText
  import opened QuizData
  import opened QuizCatalog

  /** What a main-menu choice selects. */
  datatype MainChoice =
    | OpenCategory(category: string)
    | ShowLeaderboard
    | ShowAchievements
    | ShowStats
    | StartWeekly
    | StartAdaptive
    | Exit
    | Invalid

  const MainChoices: seq<string> := ["1", "2", "3", "4", "5", "6", "7", "8", "9", "10"]

  /** `handleMainMenuChoice`: only the exact strings "1" to "10" select
      something; anything else (" 1", "01", "") is invalid, and each of the
      first four opens one of the four categories. */
  function ParseMainChoice(choice: string): (r: MainChoice)
    ensures r != Invalid <==> choice in MainChoices
    ensures r.OpenCategory? ==> r.category in Categories
    ensures forall k :: 0 <= k < 4 ==> (r == OpenCategory(Categories[k]) <==> choice == MainChoices[k])
    ensures r == ShowLeaderboard <==> choice == "5"
    ensures r == ShowAchievements <==> choice == "6"
    ensures r == ShowStats <==> choice == "7"
    ensures r == StartWeekly <==> choice == "8"
    ensures r == StartAdaptive <==> choice == "9"
    ensures r == Exit <==> choice == "10"
  {
    if choice == "1" then OpenCategory("beginner")
    else if choice == "2" then OpenCategory("intermediate")
    else if choice == "3" then OpenCategory("advanced")
    else if choice == "4" then OpenCategory("expert")
    else if choice == "5" then ShowLeaderboard
    else if choice == "6" then ShowAchievements
    else if choice == "7" then ShowStats
    else if choice == "8" then StartWeekly
    else if choice == "9" then StartAdaptive
    else if choice == "10" then Exit
    else Invalid
  }

  /** What a category-menu choice selects. */
  datatype CategoryChoice = Back | Pick(index: nat) | Reprompt

  /** `showQuizCategory`'s choice among `count` quizzes: exactly "0" goes
      back; otherwise `parseInt(choice) - 1` picks a quiz when it is a valid
      index, and anything else asks again. */
  function ParseCategoryChoice(choice: string, count: nat): (r: CategoryChoice)
    ensures r == Back <==> choice == "0"
    ensures r.Pick? <==> choice != "0" && exists n :: ParseInt(choice) == Some(n) && 1 <= n <= count
    ensures r.Pick? ==> r.index < count && ParseInt(choice) == Some(r.index + 1)
  {
    if choice == "0" then Back
    else match ParseInt(choice)
      case Some(n) => if 1 <= n <= count then Pick(n - 1) else Reprompt
      case None => Reprompt
  }

  /** Typing a quiz's number, with any leading blanks, picks that quiz; the
      number is the 1-based position the listing shows. */
  lemma PickByNumber(pad: string, n: nat, count: nat)
    requires AllWhitespace(pad) && 1 <= n <= count
    ensures ParseCategoryChoice(pad + Decimal(n), count) == Pick(n - 1)
  {
    ParseDecimal(pad, n);
    NumeralIsNotZero(pad, n);
    ChoiceOfNumber(pad + Decimal(n), count, n);
  }

  /** The numeral of a listed number, padded or not, is never the "0" that
      goes back. */
  lemma NumeralIsNotZero(pad: string, n: nat)
    requires AllWhitespace(pad) && n >= 1
    ensures pad + Decimal(n) != "0"
  {
    var s := pad + Decimal(n);
    if pad != [] {
      assert s[0] == pad[0] && IsWhitespace(s[0]);
    } else if n >= 10 {
      assert |s| == |Decimal(n / 10)| + 1;
    } else {
      assert s == ['0' + n as char];
    }
  }

  /** A choice other than "0" that reads as a listed number picks that quiz. */
  lemma ChoiceOfNumber(choice: string, count: nat, n: int)
    requires choice != "0" && ParseInt(choice) == Some(n) && 1 <= n <= count
    ensures ParseCategoryChoice(choice, count) == Pick(n - 1)
  {
  }

  /** The retake prompt's `answer.toLowerCase() === 'y'`: only "y" and "Y"
      ask for the quiz again. */
  function WantsRetake(answer: string): (yes: bool)
    ensures yes <==> answer == "y" || answer == "Y"
  {
    ToLower(answer) == "y"
  }

  /** The screens that wait for input. */
  datatype Screen =
    | MainMenu
    | CategoryMenu(category: string)
    | LeaderboardView
    | AchievementsView
    | StatsView
    | RetakePrompt(quiz: QuizDef)
    | Exited

  /** The outcome of one input line: a screen to show, or a quiz to run. */
  datatype Transition = Show(screen: Screen) | Run(quiz: QuizDef)

  /** One input line on a screen. The views (leaderboard, achievements,
      statistics) wait for Enter and return to the main menu; the weekly
      challenge and the adaptive quiz start from the main menu, the adaptive
      one at the player's tier; after exit nothing happens. */
  function Step(screen: Screen, input: string, bank: QuestionBank, tier: Tier): (t: Transition)
    ensures t.Run? ==>
      || (screen == MainMenu && (input == "8" || input == "9"))
      || (screen.CategoryMenu? && t.quiz in QuizzesForCategory(bank, screen.category))
      || (screen.RetakePrompt? && t.quiz == screen.quiz)
  {
    match screen
    case MainMenu =>
      (match ParseMainChoice(input)
       case OpenCategory(c) => Show(CategoryMenu(c))
       case ShowLeaderboard => Show(LeaderboardView)
       case ShowAchievements => Show(AchievementsView)
       case ShowStats => Show(StatsView)
       case StartWeekly => Run(WeeklyChallenge(bank))
       case StartAdaptive => Run(AdaptiveQuiz(bank, tier))
       case Exit => Show(Exited)
       case Invalid => Show(MainMenu))
    case CategoryMenu(c) =>
      var quizzes := QuizzesForCategory(bank, c);
      (match ParseCategoryChoice(input, |quizzes|)
       case Back => Show(MainMenu)
       case Pick(i) => Run(quizzes[i])
       case Reprompt => Show(CategoryMenu(c)))
    case LeaderboardView => Show(MainMenu)
    case AchievementsView => Show(MainMenu)
    case StatsView => Show(MainMenu)
    case RetakePrompt(q) => if WantsRetake(input) then Run(q) else Show(MainMenu)
    case Exited => Show(Exited)
  }

  /** The main menu's "9" runs the adaptive quiz at the tier given. */
  lemma AdaptiveChoice(bank: QuestionBank, tier: Tier)
    ensures Step(MainMenu, "9", bank, tier) == Run(AdaptiveQuiz(bank, tier))
  {
  }

  /** The main menu's "1" to "4" open the four categories, in order. */
  lemma CategoryOpens(k: nat, bank: QuestionBank, tier: Tier)
    requires k < 4
    ensures Step(MainMenu, MainChoices[k], bank, tier) == Show(CategoryMenu(Categories[k]))
  {
  }

  /** The main menu's "5", "6" and "7" show the leaderboard, the
      achievements and the statistics. */
  lemma ViewChoices(bank: QuestionBank, tier: Tier)
    ensures Step(MainMenu, "5", bank, tier) == Show(LeaderboardView)
    ensures Step(MainMenu, "6", bank, tier) == Show(AchievementsView)
    ensures Step(MainMenu, "7", bank, tier) == Show(StatsView)
  {
  }

  /** The main menu's "8" runs the weekly challenge. */
  lemma WeeklyChoice(bank: QuestionBank, tier: Tier)
    ensures Step(MainMenu, "8", bank, tier) == Run(WeeklyChallenge(bank))
  {
  }

  /** Every view returns to the main menu on the next line, whatever it is. */
  lemma ViewsReturn(view: Screen, input: string, bank: QuestionBank, tier: Tier)
    requires view == LeaderboardView || view == AchievementsView || view == StatsView
    ensures Step(view, input, bank, tier) == Show(MainMenu)
  {
  }

  /** At the retake prompt "y" or "Y" runs the same quiz again, and any other
      answer returns to the main menu. */
  lemma RetakeChoice(q: QuizDef, input: string, bank: QuestionBank, tier: Tier)
    ensures Step(RetakePrompt(q), input, bank, tier) == (if input == "y" || input == "Y" then Run(q) else Show(MainMenu))
  {
  }

  /** The program ends only from the main menu on "10". */
  lemma ExitOnlyOnTen(screen: Screen, input: string, bank: QuestionBank, tier: Tier)
    requires screen != Exited
    ensures Step(screen, input, bank, tier) == Show(Exited) <==> screen == MainMenu && input == "10"
  {
  }

  /** An invalid main-menu choice shows the main menu again. */
  lemma InvalidChoiceRedisplays(input: string, bank: QuestionBank, tier: Tier)
    requires input !in MainChoices
    ensures Step(MainMenu, input, bank, tier) == Show(MainMenu)
  {
  }

  /** From a category menu the player can only go back, stay, or run one of
      that category's quizzes; every quiz run this way has an id and, for a
      well-formed bank, at least one question. */
  lemma CategoryMoves(c: string, input: string, bank: QuestionBank, tier: Tier)
    ensures var t := Step(CategoryMenu(c), input, bank, tier);
      t == Show(MainMenu) || t == Show(CategoryMenu(c)) || (t.Run? && t.quiz in QuizzesForCategory(bank, c))
    ensures var t := Step(CategoryMenu(c), input, bank, tier);
      t.Run? ==> t.quiz.id.Some? && (BankOk(bank) ==> t.quiz.questions != [])
  {
    CategoryShape(bank, c);
  }

  /** An unknown category lists nothing, so every choice but "0" asks again. */
  lemma UnknownCategoryReprompts(c: string, input: string, bank: QuestionBank, tier: Tier)
    requires c !in Categories && input != "0"
    ensures Step(CategoryMenu(c), input, bank, tier) == Show(CategoryMenu(c))
  {
    CategoryShape(bank, c);
  }

  /** Typing the n-th quiz's number in a known category runs that quiz. */
  lemma CategoryPick(c: string, pad: string, n: nat, bank: QuestionBank, tier: Tier)
    requires c in Categories && AllWhitespace(pad) && 1 <= n <= 3
    ensures Step(CategoryMenu(c), pad + Decimal(n), bank, tier) == Run(QuizzesForCategory(bank, c)[n - 1])
  {
    PickByNumber(pad, n, |QuizzesForCategory(bank, c)|);
    PickRuns(c, pad + Decimal(n), bank, tier, n - 1);
  }

  /** A choice that picks the i-th quiz of a category menu runs that quiz. */
  lemma PickRuns(c: string, input: string, bank: QuestionBank, tier: Tier, i: nat)
    requires ParseCategoryChoice(input, |QuizzesForCategory(bank, c)|) == Pick(i)
    ensures i < |QuizzesForCategory(bank, c)|
    ensures Step(CategoryMenu(c), input, bank, tier) == Run(QuizzesForCategory(bank, c)[i])
  {
  }

  /** Every quiz that a step runs has at least one question when the bank is
      well formed, so the score's division is always defined. */
  lemma RunsAreNonEmpty(screen: Screen, input: string, bank: QuestionBank, tier: Tier)
    requires BankOk(bank)
    requires screen.RetakePrompt? ==> screen.quiz.questions != []
    ensures Step(screen, input, bank, tier).Run? ==> Step(screen, input, bank, tier).quiz.questions != []
  {
    if screen.CategoryMenu? {
      CategoryMoves(screen.category, input, bank, tier);
    }
  }
}
