/**
 * The lead-generation quiz of src/components/quiz/QuizModal.tsx: the scored
 * recommendation (calculateRecommendation) and the step wizard (nextStep,
 * prevStep and the Next button).
 */
module Quiz {

  /** The form data (QuizFormData); an unanswered field is the empty string. */
  datatype Answers = Answers(
    email: string,
    businessType: string,
    currentChallenges: string,
    automationGoals: string,
    companySize: string,
    currentTools: string,
    budgetRange: string,
    timeline: string,
    additionalNotes: string)

  // ---------------------------------------------------------------------------
  // Scoring

  const BudgetScores: map<string, int> := map[
    "Under $1k" := 1, "$1k-$3k" := 2, "$3k-$5k" := 3, "$5k-$10k" := 4, "$10k+" := 5, "Custom" := 5]

  const SizeScores: map<string, int> := map["1-5" := 1, "6-20" := 2, "21-50" := 3, "51+" := 4]

  const TimelineScores: map<string, int> := map[
    "Urgent - within 1 month" := 3, "1-3 months" := 2, "3-6 months" := 1, "Exploring options" := 0]

  /** `table[key] || fallback`: a missing key, or a score of 0, gives the fallback. */
  function ScoreOr(table: map<string, int>, key: string, fallback: int): (r: int)
    ensures key !in table ==> r == fallback
    ensures key in table && table[key] == 0 ==> r == fallback
    ensures key in table && table[key] != 0 ==> r == table[key]
  {
    if key in table && table[key] != 0 then table[key] else fallback
  }

  function BudgetScore(budget: string): (r: int)
    ensures 1 <= r <= 5
    ensures budget !in BudgetScores ==> r == 1
    ensures r == 5 <==> budget == "$10k+" || budget == "Custom"
  {
    ScoreOr(BudgetScores, budget, 1)
  }

  function SizeScore(size: string): (r: int)
    ensures 1 <= r <= 4
    ensures size !in SizeScores ==> r == 1
    ensures r == 4 <==> size == "51+"
  {
    ScoreOr(SizeScores, size, 1)
  }

  function TimelineScore(timeline: string): (r: int)
    ensures 0 <= r <= 3
    ensures timeline !in TimelineScores ==> r == 0
    ensures r == 3 <==> timeline == "Urgent - within 1 month"
  {
    ScoreOr(TimelineScores, timeline, 0)
  }

  /** The five packages, from the smallest to the largest. */
  datatype Tier = AiCreativeStarter | AutomationEssentials | AutomationPower | ManagedGrowth | EnterpriseAmplification
  {
    function Rank(): nat {
      match this
      case AiCreativeStarter => 0
      case AutomationEssentials => 1
      case AutomationPower => 2
      case ManagedGrowth => 3
      case EnterpriseAmplification => 4
    }

    /** The product slug stored as `recommendation`. */
    function Slug(): string {
      match this
      case AiCreativeStarter => "ai-creative-starter"
      case AutomationEssentials => "automation-essentials"
      case AutomationPower => "automation-power"
      case ManagedGrowth => "managed-growth"
      case EnterpriseAmplification => "enterprise-amplification"
    }
  }

  /** The threshold chain: <=3, <=5, <=7, <=9, otherwise. */
  function TierFor(score: int): (t: Tier)
    ensures t.Rank() == if score <= 3 then 0 else if score >= 10 then 4 else (score - 2) / 2
  {
    if score <= 3 then AiCreativeStarter
    else if score <= 5 then AutomationEssentials
    else if score <= 7 then AutomationPower
    else if score <= 9 then ManagedGrowth
    else EnterpriseAmplification
  }

  /** A higher score never yields a smaller package. */
  lemma TierMonotone(a: int, b: int)
    requires a <= b
    ensures TierFor(a).Rank() <= TierFor(b).Rank()
  {
  }

  /** Distinct tiers have distinct slugs, so the stored slug names the tier. */
  lemma SlugsDistinct(s: Tier, t: Tier)
    requires s.Slug() == t.Slug()
    ensures s == t
  {
    assert s.Slug()[0] == t.Slug()[0];
    if s.Slug()[0] == 'a' {
      assert s.Slug()[1] == t.Slug()[1];
      if s.Slug()[1] == 'u' {
        assert s.Slug()[11] == t.Slug()[11];
      }
    }
  }

  datatype Recommendation = Recommendation(recommendation: string, score: int)

  /** calculateRecommendation: the score is the sum of the three table scores. */
  function CalculateRecommendation(a: Answers): (r: Recommendation)
    ensures r.score == BudgetScore(a.budgetRange) + SizeScore(a.companySize) + TimelineScore(a.timeline)
    ensures 2 <= r.score <= 12
    ensures r.recommendation == TierFor(r.score).Slug()
  {
    var score := BudgetScore(a.budgetRange) + SizeScore(a.companySize) + TimelineScore(a.timeline);
    Recommendation(TierFor(score).Slug(), score)
  }

  /** The smallest answers give the starter package, the largest the enterprise one. */
  lemma RecommendationExtremes(a: Answers)
    ensures a.budgetRange == "Under $1k" && a.companySize == "1-5" && a.timeline == "Exploring options"
            ==> CalculateRecommendation(a) == Recommendation("ai-creative-starter", 2)
    ensures (a.budgetRange == "$10k+" || a.budgetRange == "Custom") && a.companySize == "51+"
            && a.timeline == "Urgent - within 1 month"
            ==> CalculateRecommendation(a) == Recommendation("enterprise-amplification", 12)
  {
  }

  // ---------------------------------------------------------------------------
  // The wizard

  datatype QuestionKind = Radio | Textarea
  datatype Question = Question(id: string, kind: QuestionKind)

  const Questions: seq<Question> := [
    Question("business_type", Radio),
    Question("current_challenges", Textarea),
    Question("automation_goals", Textarea),
    Question("company_size", Radio),
    Question("current_tools", Textarea),
    Question("budget_range", Radio),
    Question("timeline", Radio),
    Question("additional_notes", Textarea)]

  /** `questions.length`; steps 0..7 show a question, step 8 the email field. */
  const QuestionCount: nat := |Questions|

  /** `totalSteps = questions.length + 1` */
  const TotalSteps: nat := QuestionCount + 1

  /** Radio questions are always required; a textarea unless it is additional_notes. */
  function IsRequired(q: Question): (r: bool)
    ensures q.kind == Radio ==> r
    ensures !r ==> q.id == "additional_notes"
  {
    q.kind == Radio || q.id != "additional_notes"
  }

  /** `watch(id)`: the current answer to a question. */
  function AnswerFor(a: Answers, id: string): string {
    match id
    case "business_type" => a.businessType
    case "current_challenges" => a.currentChallenges
    case "automation_goals" => a.automationGoals
    case "company_size" => a.companySize
    case "current_tools" => a.currentTools
    case "budget_range" => a.budgetRange
    case "timeline" => a.timeline
    case "additional_notes" => a.additionalNotes
    case _ => ""
  }

  /** Every question except additional_notes is required, and the email is the ninth step. */
  lemma QuestionTable()
    ensures QuestionCount == 8 && TotalSteps == 9
    ensures forall i :: 0 <= i < QuestionCount ==> (IsRequired(Questions[i]) <==> i != 7)
    ensures Questions[7].id == "additional_notes"
  {
  }

  /** The Next button as written: disabled while the watched answer is empty. */
  function NextEnabledAsWritten(a: Answers, step: nat): (r: bool)
    requires step < QuestionCount
    ensures r ==> NextEnabled(a, step)
    ensures IsRequired(Questions[step]) ==> (r <==> NextEnabled(a, step))
  {
    AnswerFor(a, Questions[step].id) != ""
  }

  /** The Next button as intended: disabled only while a required answer is missing. */
  function NextEnabled(a: Answers, step: nat): (r: bool)
    requires step < QuestionCount
    ensures !IsRequired(Questions[step]) ==> r
  {
    !IsRequired(Questions[step]) || AnswerFor(a, Questions[step].id) != ""
  }

  /** Every required answer has been given. */
  predicate RequiredAnswered(a: Answers) {
    forall i :: 0 <= i < QuestionCount && IsRequired(Questions[i]) ==> AnswerFor(a, Questions[i].id) != ""
  }

  /**
   * As written, leaving the optional notes empty disables Next on the last
   * question even when every required answer is given, so the email step
   * cannot be reached.
   */
  lemma EmptyNotesBlockNext(a: Answers)
    requires RequiredAnswered(a) && a.additionalNotes == ""
    ensures !IsRequired(Questions[7])
    ensures !NextEnabledAsWritten(a, 7)
  {
  }

  /** With the intended rule, answering the required questions enables Next on every question. */
  lemma RequiredAnswersEnableNext(a: Answers)
    requires RequiredAnswered(a)
    ensures forall step :: 0 <= step < QuestionCount ==> NextEnabled(a, step)
  {
  }

  /** The rule only relaxes the written one on the optional question. */
  lemma NextRuleDiffersOnlyOnNotes(a: Answers, step: nat)
    requires step < QuestionCount && step != 7
    ensures NextEnabled(a, step) <==> NextEnabledAsWritten(a, step)
  {
  }

  class Wizard {
    var step: int

    constructor ()
      ensures step == 0
    {
      step := 0;
    }

    ghost predicate Valid()
      reads this
    {
      0 <= step <= QuestionCount
    }

    /** Step 8 (and only a step past the questions) shows the email field and the submit button. */
    function OnEmailStep(): (r: bool)
      reads this
      ensures Valid() ==> (r <==> step == TotalSteps - 1)
    {
      step >= QuestionCount
    }

    /** nextStep: advances only while a question is showing. */
    method NextStep()
      modifies this
      ensures step == if old(step) < QuestionCount then old(step) + 1 else old(step)
      ensures old(Valid()) ==> Valid()
    {
      if step < QuestionCount {
        step := step + 1;
      }
    }

    /** prevStep: goes back only while past the first question. */
    method PrevStep()
      modifies this
      ensures step == if old(step) > 0 then old(step) - 1 else old(step)
      ensures old(Valid()) ==> Valid()
    {
      if step > 0 {
        step := step - 1;
      }
    }

    /**
     * A click on Next, which is shown on question steps and does nothing while
     * disabled: as written, it is disabled whenever the current answer is empty.
     */
    method ClickNext(a: Answers)
      requires Valid()
      modifies this
      ensures Valid()
      ensures step == if old(step) < QuestionCount && NextEnabledAsWritten(a, old(step)) then old(step) + 1 else old(step)
    {
      if step < QuestionCount && NextEnabledAsWritten(a, step) {
        NextStep();
      }
    }

    /** A click on Next under the intended rule, which lets the optional question be skipped. */
    method ClickNextIntended(a: Answers)
      requires Valid()
      modifies this
      ensures Valid()
      ensures step == if old(step) < QuestionCount && NextEnabled(a, old(step)) then old(step) + 1 else old(step)
    {
      if step < QuestionCount && NextEnabled(a, step) {
        NextStep();
      }
    }
  }
}
