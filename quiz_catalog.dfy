/** The quizzes on offer: the four categories of three quizzes each, the
    weekly challenge, and the adaptive quiz whose question set follows the
    player's skill tier. The questions themselves are static data and are
    taken as a parameter (a `QuestionBank`). */
module QuizCatalog {

  import opened Wrappers
  import opened QuizData

  /** The thirteen question sets the program ships with. */
  datatype QuestionBank = QuestionBank(
    yamlBasics: seq<Question>,
    dockerFundamentals: seq<Question>,
    containers101: seq<Question>,
    multiContainer: seq<Question>,
    networking: seq<Question>,
    volumes: seq<Question>,
    production: seq<Question>,
    security: seq<Question>,
    performance: seq<Question>,
    kubernetes: seq<Question>,
    cicd: seq<Question>,
    microservices: seq<Question>,
    weekly: seq<Question>)

  /** Every shipped question set has at least one question. */
  predicate BankOk(bank: QuestionBank) {
    && bank.yamlBasics != [] && bank.dockerFundamentals != [] && bank.containers101 != []
    && bank.multiContainer != [] && bank.networking != [] && bank.volumes != []
    && bank.production != [] && bank.security != [] && bank.performance != []
    && bank.kubernetes != [] && bank.cicd != [] && bank.microservices != []
    && bank.weekly != []
  }

  const Categories: seq<string> := ["beginner", "intermediate", "advanced", "expert"]

  /** `getQuizzesForCategory`: the three quizzes of a known category, in menu
      order, and an empty list for any other name. */
  function QuizzesForCategory(bank: QuestionBank, category: string): (qs: seq<QuizDef>)
    ensures |qs| == if category in Categories then 3 else 0
  {
    if category == "beginner" then BeginnerQuizzes(bank)
    else if category == "intermediate" then IntermediateQuizzes(bank)
    else if category == "advanced" then AdvancedQuizzes(bank)
    else if category == "expert" then ExpertQuizzes(bank)
    else []
  }

  function BeginnerQuizzes(bank: QuestionBank): seq<QuizDef> {
    [ QuizDef(Some("yaml-basics"), "YAML Basics", bank.yamlBasics),
      QuizDef(Some("docker-fundamentals"), "Docker Fundamentals", bank.dockerFundamentals),
      QuizDef(Some("containers-101"), "Containers 101", bank.containers101) ]
  }

  function IntermediateQuizzes(bank: QuestionBank): seq<QuizDef> {
    [ QuizDef(Some("multi-container"), "Multi-Container Applications", bank.multiContainer),
      QuizDef(Some("networking"), "Docker Networking", bank.networking),
      QuizDef(Some("volumes-storage"), "Volumes & Storage", bank.volumes) ]
  }

  function AdvancedQuizzes(bank: QuestionBank): seq<QuizDef> {
    [ QuizDef(Some("production-deployment"), "Production Deployment", bank.production),
      QuizDef(Some("security-hardening"), "Security & Hardening", bank.security),
      QuizDef(Some("performance-optimization"), "Performance Optimization", bank.performance) ]
  }

  function ExpertQuizzes(bank: QuestionBank): seq<QuizDef> {
    [ QuizDef(Some("kubernetes-migration"), "Kubernetes Migration", bank.kubernetes),
      QuizDef(Some("cicd-integration"), "CI/CD Integration", bank.cicd),
      QuizDef(Some("microservices-architecture"), "Microservices Architecture", bank.microservices) ]
  }

  /** Every quiz of every category, in menu order. */
  function AllCategoryQuizzes(bank: QuestionBank): seq<QuizDef> {
    BeginnerQuizzes(bank) + IntermediateQuizzes(bank) + AdvancedQuizzes(bank) + ExpertQuizzes(bank)
  }

  /** A known category lists three quizzes, each with an id and, for a
      well-formed bank, with questions; any other name lists none. */
  lemma CategoryShape(bank: QuestionBank, category: string)
    ensures category !in Categories ==> QuizzesForCategory(bank, category) == []
    ensures var qs := QuizzesForCategory(bank, category);
      forall k :: 0 <= k < |qs| ==> qs[k].id.Some? && (BankOk(bank) ==> qs[k].questions != [])
  {
    var qs := QuizzesForCategory(bank, category);
    assert qs == BeginnerQuizzes(bank) || qs == IntermediateQuizzes(bank)
      || qs == AdvancedQuizzes(bank) || qs == ExpertQuizzes(bank) || qs == [];
  }

  /** The twelve category quizzes carry twelve different ids, so the progress
      shown for a quiz (looked up by id) is that quiz's own. */
  lemma CategoryIdsDistinct(bank: QuestionBank)
    ensures |AllCategoryQuizzes(bank)| == 12
    ensures forall i, j :: 0 <= i < j < 12 ==> AllCategoryQuizzes(bank)[i].id != AllCategoryQuizzes(bank)[j].id
  {
    var all := AllCategoryQuizzes(bank);
    var lengths := [11, 19, 14, 15, 10, 15, 21, 18, 24, 20, 16, 26];
    assert forall k :: 0 <= k < 12 ==> all[k].id.Some? && |all[k].id.value| == lengths[k];
    assert all[3].id.value[0] != all[5].id.value[0];
  }

  /** The weekly challenge; it has no id, so its attempts count toward no
      category quiz. */
  function WeeklyChallenge(bank: QuestionBank): (q: QuizDef)
    ensures q.id.None? && q.questions == bank.weekly
  {
    QuizDef(None, "Secure a Docker Application", bank.weekly)
  }

  // -------------------------------------------------------------- skill tiers

  datatype Tier = Beginner | Intermediate | Advanced | Expert

  function TierRank(t: Tier): nat {
    match t
    case Beginner => 0
    case Intermediate => 1
    case Advanced => 2
    case Expert => 3
  }

  /** The level name the program prints and looks question sets up by. */
  function TierName(t: Tier): string {
    match t
    case Beginner => "Beginner"
    case Intermediate => "Intermediate"
    case Advanced => "Advanced"
    case Expert => "Expert"
  }

  /** Whether an average qualifies for a tier: Expert from 90, Advanced from
      75, Intermediate from 60, bounds included; Beginner for any average. */
  predicate Qualifies(t: Tier, average: real) {
    match t
    case Expert => average >= 90.0
    case Advanced => average >= 75.0
    case Intermediate => average >= 60.0
    case Beginner => true
  }

  /** `getUserSkillLevel` for a named user: the highest tier the average
      qualifies for. */
  function TierFor(average: real): (t: Tier)
    ensures Qualifies(t, average)
    ensures forall h :: TierRank(h) > TierRank(t) ==> !Qualifies(h, average)
  {
    if average >= 90.0 then Expert
    else if average >= 75.0 then Advanced
    else if average >= 60.0 then Intermediate
    else Beginner
  }

  /** A higher average never gives a lower tier. */
  lemma TierMonotone(a1: real, a2: real)
    requires a1 <= a2
    ensures TierRank(TierFor(a1)) <= TierRank(TierFor(a2))
  {
    var t := TierFor(a1);
    assert Qualifies(t, a2);
  }

  /** The bounds are inclusive: 90 is Expert and 89.9 Advanced, 75 Advanced
      and 74.9 Intermediate, 60 Intermediate and 59.9 Beginner. */
  lemma TierBoundaries()
    ensures TierFor(90.0) == Expert && TierFor(89.9) == Advanced
    ensures TierFor(75.0) == Advanced && TierFor(74.9) == Intermediate
    ensures TierFor(60.0) == Intermediate && TierFor(59.9) == Beginner
  {
  }

  /** Names of different tiers differ. */
  lemma TierNamesDistinct(t1: Tier, t2: Tier)
    ensures TierName(t1) == TierName(t2) <==> t1 == t2
  {
  }

  /** `generateAdaptiveQuestions`: the question set for a level name, and the
      YAML basics set for a name that is not a level. */
  function AdaptiveQuestions(bank: QuestionBank, level: string): (qs: seq<Question>)
    ensures qs == bank.yamlBasics || qs == bank.multiContainer || qs == bank.production || qs == bank.kubernetes
    ensures BankOk(bank) ==> qs != []
  {
    if level == "Beginner" then bank.yamlBasics
    else if level == "Intermediate" then bank.multiContainer
    else if level == "Advanced" then bank.production
    else if level == "Expert" then bank.kubernetes
    else bank.yamlBasics
  }

  /** The category whose first quiz a tier's adaptive quiz repeats. */
  function TierCategory(t: Tier): string {
    match t
    case Beginner => "beginner"
    case Intermediate => "intermediate"
    case Advanced => "advanced"
    case Expert => "expert"
  }

  /** Each tier gets exactly one fixed question set: the questions of the
      first quiz of its category (YAML basics, multi-container, production
      deployment, Kubernetes migration); any other level name gets the
      Beginner set. */
  lemma AdaptiveSetPerTier(bank: QuestionBank, t: Tier, level: string)
    ensures AdaptiveQuestions(bank, TierName(t)) == QuizzesForCategory(bank, TierCategory(t))[0].questions
    ensures (forall u :: level != TierName(u)) ==> AdaptiveQuestions(bank, level) == AdaptiveQuestions(bank, TierName(Beginner))
  {
    if forall u :: level != TierName(u) {
      assert level != TierName(Intermediate) && level != TierName(Advanced) && level != TierName(Expert);
    }
  }

  /** `startAdaptiveQuiz`: an id-less quiz titled after the tier, over the
      tier's question set. */
  function AdaptiveQuiz(bank: QuestionBank, t: Tier): (q: QuizDef)
    ensures q.id.None?
    ensures BankOk(bank) ==> q.questions != []
  {
    QuizDef(None, "Adaptive Quiz (Level: " + TierName(t) + ")", AdaptiveQuestions(bank, TierName(t)))
  }
}
