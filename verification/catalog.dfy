/** The static health-assessment catalog of the questionnaire screen: the
    conditions with their questions and score-weighted options, and the risk
    threshold table. The data is configuration: it is read, never changed. */
module HealthCatalog {
  import opened Wrappers

  /** One selectable answer and its contribution to the risk score. */
  datatype AnswerOption = AnswerOption(text: string, score: int)

  datatype Question = Question(id: int, text: string, options: seq<AnswerOption>)

  datatype Condition = Condition(id: string, name: string, questions: seq<Question>)

  /** A display grouping of conditions; it has no effect on scoring. */
  datatype Category = Category(name: string, conditions: seq<Condition>)

  /** A score band `[rangeMin, rangeMax]` mapped to a named risk tier. */
  datatype Threshold = Threshold(level: string, rangeMin: int, rangeMax: int, colorCode: string, message: string)

  datatype RiskLogic = RiskLogic(totalPossibleScore: int, thresholds: seq<Threshold>)

  datatype HealthData = HealthData(assessments: seq<Category>, riskLogic: RiskLogic)

  const LowRiskLevel: string := "Low Risk"
  const ModerateRiskLevel: string := "Moderate Risk"
  const HighRiskLevel: string := "High Risk"

  /** Largest score any single option of the shipped catalog carries. */
  const MaxOptionScore: int := 10

  const Diabetes: Condition := Condition("diabetes", "Diabetes", [
    Question(1, "Do you have a family history of Type 2 Diabetes? (Parent, sibling)", [
      AnswerOption("Yes, in immediate family (parent/sibling)", 10),
      AnswerOption("Yes, in extended family (grandparent/uncle/aunt)", 5),
      AnswerOption("No known history", 0),
      AnswerOption("Not sure", 2)]),
    Question(2, "Have you ever been diagnosed with high blood sugar or prediabetes?", [
      AnswerOption("Yes, diagnosed by a doctor", 10),
      AnswerOption("No, never diagnosed", 0),
      AnswerOption("Not sure", 5)]),
    Question(3, "How often do you exercise or engage in physical activity?", [
      AnswerOption("Daily (30 minutes or more)", 0),
      AnswerOption("3–5 times a week", 3),
      AnswerOption("Rarely", 7),
      AnswerOption("Never", 10)]),
    Question(4, "Have you or your family ever experienced obesity-related conditions?", [
      AnswerOption("Yes, in immediate family", 10),
      AnswerOption("Yes, in extended family", 5),
      AnswerOption("No", 0),
      AnswerOption("Not sure", 2)])])

  const Hypertension: Condition := Condition("hypertension", "Hypertension (High BP)", [
    Question(1, "How often do you consume processed or high-salt foods?", [
      AnswerOption("Daily / Very Often", 10),
      AnswerOption("Occasionally", 5),
      AnswerOption("Rarely", 0)]),
    Question(2, "Do you experience frequent headaches or dizziness?", [
      AnswerOption("Yes, frequently", 10),
      AnswerOption("Sometimes", 5),
      AnswerOption("No", 0)]),
    Question(3, "Is your resting blood pressure usually above 120/80?", [
      AnswerOption("Yes, consistently higher", 10),
      AnswerOption("Sometimes / Borderline", 5),
      AnswerOption("No, it is normal", 0),
      AnswerOption("I don't check it", 3)]),
    Question(4, "Do you smoke or consume alcohol regularly?", [
      AnswerOption("Yes, both or heavily", 10),
      AnswerOption("Ideally moderate / Socially", 5),
      AnswerOption("No", 0)])])

  const LungCancer: Condition := Condition("lung_cancer", "Lung Cancer", [
    Question(1, "Do you currently smoke or have you smoked in the past?", [
      AnswerOption("Yes, currently smoke", 10),
      AnswerOption("Yes, but I quit", 5),
      AnswerOption("No, never", 0)]),
    Question(2, "Are you frequently exposed to secondhand smoke or industrial pollutants?", [
      AnswerOption("Yes, frequently", 10),
      AnswerOption("Occasionally", 5),
      AnswerOption("No", 0)]),
    Question(3, "Do you have a persistent cough that hasn't gone away for weeks?", [
      AnswerOption("Yes", 10),
      AnswerOption("No", 0),
      AnswerOption("Not sure", 3)]),
    Question(4, "Is there a history of lung cancer in your family?", [
      AnswerOption("Yes, immediate family", 10),
      AnswerOption("Yes, extended family", 5),
      AnswerOption("No", 0)])])

  const Stress: Condition := Condition("stress", "Stress", [
    Question(1, "How often do you feel overwhelmed by your daily responsibilities?", [
      AnswerOption("Almost every day", 10),
      AnswerOption("A few times a week", 5),
      AnswerOption("Rarely", 0)]),
    Question(2, "Do you experience physical symptoms like tension headaches or chest tightness?", [
      AnswerOption("Yes, often", 10),
      AnswerOption("Sometimes", 5),
      AnswerOption("No", 0)]),
    Question(3, "Are you able to relax and disconnect from work/study?", [
      AnswerOption("No, I find it very hard", 10),
      AnswerOption("Sometimes", 5),
      AnswerOption("Yes, easily", 0)]),
    Question(4, "How is your sleep quality when you are stressed?", [
      AnswerOption("Very poor / Insomnia", 10),
      AnswerOption("Disturbed", 5),
      AnswerOption("Normal", 0)])])

  const Vision: Condition := Condition("vision", "Vision", [
    Question(1, "Do you experience blurred vision when reading or looking at screens?", [
      AnswerOption("Yes, frequently", 10),
      AnswerOption("After long hours only", 5),
      AnswerOption("No", 0)]),
    Question(2, "How many hours per day do you spend looking at digital screens?", [
      AnswerOption("8+ hours", 10),
      AnswerOption("4-8 hours", 5),
      AnswerOption("Less than 4 hours", 0)]),
    Question(3, "Do you get frequent headaches around your eyes or forehead?", [
      AnswerOption("Yes, often", 10),
      AnswerOption("Occasionally", 5),
      AnswerOption("No", 0)]),
    Question(4, "When was your last eye checkup?", [
      AnswerOption("More than 2 years ago / Never", 10),
      AnswerOption("Within last 2 years", 5),
      AnswerOption("Within last year", 0)])])

  const Thresholds: seq<Threshold> := [
    Threshold(LowRiskLevel, 0, 10, "#28a745",
      "Your risk appears low. Keep maintaining a healthy lifestyle."),
    Threshold(ModerateRiskLevel, 11, 25, "#ffc107",
      "You have some risk factors. Consider monitoring your health and consulting a doctor."),
    Threshold(HighRiskLevel, 26, 40, "#dc3545",
      "High risk detected. It is highly recommended to consult a specialist immediately.")]

  /** The declared `total_possible_score`. */
  const TotalPossibleScore: int := 40

  /** The shipped `risk_logic` block. */
  const ShippedRiskLogic: RiskLogic := RiskLogic(TotalPossibleScore, Thresholds)

  const HEALTH_DATA: HealthData := HealthData([
      Category("Chronic Condition", [Diabetes, Hypertension]),
      Category("Cancer Awareness", [LungCancer]),
      Category("Wellbeing", [Stress]),
      Category("Sensory Health", [Vision])],
    ShippedRiskLogic)

  /** The condition ids the catalog has questions for. */
  const CatalogIds: set<string> := {"diabetes", "hypertension", "lung_cancer", "stress", "vision"}

  /* ---------------- Condition lookup ---------------- */

  /** `conditions.find(c => c.id === id)`: the first condition with that id. */
  function FindInCategory(conditions: seq<Condition>, id: string): (r: Option<Condition>)
    ensures r.None? <==> forall k :: 0 <= k < |conditions| ==> conditions[k].id != id
    ensures r.Some? ==> exists k :: 0 <= k < |conditions| && conditions[k] == r.value
                          && r.value.id == id
                          && forall j :: 0 <= j < k ==> conditions[j].id != id
  {
    if |conditions| == 0 then None
    else if conditions[0].id == id then Some(conditions[0])
    else
      var r := FindInCategory(conditions[1..], id);
      assert r.Some? ==> exists k :: 1 <= k < |conditions| && conditions[k] == r.value
                          && forall j :: 0 <= j < k ==> conditions[j].id != id by {
        if r.Some? {
          var k :| 0 <= k < |conditions[1..]| && conditions[1..][k] == r.value
                   && r.value.id == id
                   && forall j :: 0 <= j < k ==> conditions[1..][j].id != id;
          assert conditions[k + 1] == r.value;
        }
      }
      r
  }

  /** True iff some condition of some category has the id. */
  ghost predicate InCatalog(categories: seq<Category>, id: string) {
    exists i, k :: 0 <= i < |categories| && 0 <= k < |categories[i].conditions|
                   && categories[i].conditions[k].id == id
  }

  /** The loop over the categories, stopping at the first category whose
      conditions contain the id. */
  /** The index of the first category holding a condition with the id, or
      the number of categories when none does. */
  function FirstHolder(categories: seq<Category>, id: string): (i: nat)
    ensures i <= |categories|
    ensures forall j :: 0 <= j < i ==> FindInCategory(categories[j].conditions, id).None?
    ensures i < |categories| ==> FindInCategory(categories[i].conditions, id).Some?
  {
    if |categories| == 0 || FindInCategory(categories[0].conditions, id).Some? then 0
    else
      var i := FirstHolder(categories[1..], id);
      assert forall j :: 1 <= j < i + 1 ==> categories[j] == categories[1..][j - 1];
      i + 1
  }

  function FindCondition(categories: seq<Category>, id: string): (r: Option<Condition>)
    ensures r.None? <==> !InCatalog(categories, id)
    ensures r.Some? ==> r.value.id == id
                        && exists i :: 0 <= i < |categories| && r.value in categories[i].conditions
    ensures r.Some? ==> FirstHolder(categories, id) < |categories|
                        && FindInCategory(categories[FirstHolder(categories, id)].conditions, id) == r
  {
    if |categories| == 0 then None
    else
      var found := FindInCategory(categories[0].conditions, id);
      if found.Some? then found
      else
        var r := FindCondition(categories[1..], id);
        assert InCatalog(categories, id) <==> InCatalog(categories[1..], id) by {
          if InCatalog(categories, id) {
            var i, k :| 0 <= i < |categories| && 0 <= k < |categories[i].conditions|
                        && categories[i].conditions[k].id == id;
            assert i != 0;
            assert categories[1..][i - 1] == categories[i];
          }
          if InCatalog(categories[1..], id) {
            var i, k :| 0 <= i < |categories[1..]| && 0 <= k < |categories[1..][i].conditions|
                        && categories[1..][i].conditions[k].id == id;
            assert categories[i + 1] == categories[1..][i];
          }
        }
        assert r.Some? ==> exists i :: 0 <= i < |categories| && r.value in categories[i].conditions by {
          if r.Some? {
            var i :| 0 <= i < |categories[1..]| && r.value in categories[1..][i].conditions;
            assert categories[i + 1] == categories[1..][i];
          }
        }
        r
  }

  /** The catalog's lookup finds a condition exactly for the five ids it has
      questions for; every other id takes the not-found path. */
  lemma {:induction false} LookupFindsExactlyCatalogIds(id: string)
    ensures FindCondition(HEALTH_DATA.assessments, id).Some? <==> id in CatalogIds
    ensures FindCondition(HEALTH_DATA.assessments, id).Some? ==>
              FindCondition(HEALTH_DATA.assessments, id).value.id == id
  {
    var cats := HEALTH_DATA.assessments;
    if id in CatalogIds {
      if id == "diabetes" {
        assert cats[0].conditions[0].id == id;
      } else if id == "hypertension" {
        assert cats[0].conditions[1].id == id;
      } else if id == "lung_cancer" {
        assert cats[1].conditions[0].id == id;
      } else if id == "stress" {
        assert cats[2].conditions[0].id == id;
      } else {
        assert cats[3].conditions[0].id == id;
      }
      assert InCatalog(cats, id);
    } else {
      forall i, k | 0 <= i < |cats| && 0 <= k < |cats[i].conditions|
        ensures cats[i].conditions[k].id != id
      {
        assert cats[i].conditions[k].id in CatalogIds;
      }
    }
  }

  /* ---------------- Catalog invariants ---------------- */

  /** Every condition of the catalog, in catalog order. */
  const AllConditions: seq<Condition> := [Diabetes, Hypertension, LungCancer, Stress, Vision]

  predicate DistinctQuestionIds(qs: seq<Question>) {
    forall i, j :: 0 <= i < j < |qs| ==> qs[i].id != qs[j].id
  }

  /** Each option's score lies in `[0, MaxOptionScore]`. */
  predicate ScoresInRange(q: Question) {
    forall o :: o in q.options ==> 0 <= o.score <= MaxOptionScore
  }

  /** The largest score among a question's options (0 when it has none). */
  function MaxScore(options: seq<AnswerOption>): (r: int)
    ensures forall o :: o in options ==> o.score <= r
    ensures |options| > 0 ==> exists o :: o in options && o.score == r
  {
    if |options| == 0 then 0
    else
      var rest := MaxScore(options[1..]);
      assert forall o :: o in options[1..] ==> o in options;
      if |options| == 1 || options[0].score >= rest then
        assert forall o :: o in options ==> o == options[0] || o in options[1..];
        options[0].score
      else
        assert forall o :: o in options ==> o == options[0] || o in options[1..];
        rest
  }

  /** Sum over the questions of their largest option score: the best a
      complete answer set can reach. */
  function MaxTotal(qs: seq<Question>): int {
    if |qs| == 0 then 0 else MaxTotal(qs[..|qs| - 1]) + MaxScore(qs[|qs| - 1].options)
  }

  predicate WellFormedCondition(c: Condition) {
    && |c.questions| == 4
    && DistinctQuestionIds(c.questions)
    && forall q :: q in c.questions ==> |q.options| > 0 && ScoresInRange(q)
  }

  predicate QuestionTopsOut(q: Question) {
    MaxScore(q.options) == MaxOptionScore
  }

  /** A question whose scores are in range tops out as soon as one of its
      options carries the maximum score. */
  lemma TopsOutByWitness(q: Question, k: int)
    requires ScoresInRange(q)
    requires 0 <= k < |q.options| && q.options[k].score == MaxOptionScore
    ensures QuestionTopsOut(q)
  {
    assert q.options[k] in q.options;
  }

  /** Every question of the given condition is well formed and tops out. */
  lemma QuestionsWellFormed(c: Condition)
    requires c in AllConditions
    ensures forall q :: q in c.questions ==> |q.options| > 0 && ScoresInRange(q) && QuestionTopsOut(q)
  {
    forall i | 0 <= i < |c.questions|
      ensures |c.questions[i].options| > 0 && ScoresInRange(c.questions[i]) && QuestionTopsOut(c.questions[i])
    {
      var k := if c == Diabetes && i == 2 then 3 else 0;
      QuestionWellFormed(c, i, k);
      TopsOutByWitness(c.questions[i], k);
    }
  }

  /** One question of one catalog condition, with `k` the index of an option
      scoring the maximum (option 3 for the third diabetes question, the first
      option everywhere else). Stating it per question keeps each proof to one
      question of the large catalog constant; `QuestionsWellFormed` and
      `CatalogInvariants` then state it for every question of every condition. */
  lemma QuestionWellFormed(c: Condition, i: int, k: int)
    requires c in AllConditions && 0 <= i < |c.questions|
    requires k == if c == Diabetes && i == 2 then 3 else 0
    ensures ScoresInRange(c.questions[i])
    ensures 0 <= k < |c.questions[i].options| && c.questions[i].options[k].score == MaxOptionScore
  {
    var opts := c.questions[i].options;
    assert forall o :: o in opts ==> 0 <= o.score <= MaxOptionScore by {
      forall o | o in opts ensures 0 <= o.score <= MaxOptionScore {
        var m :| 0 <= m < |opts| && opts[m] == o;
      }
    }
  }

  lemma ConditionIsWellFormed(c: Condition)
    requires c in AllConditions
    ensures WellFormedCondition(c)
    ensures forall q :: q in c.questions ==> QuestionTopsOut(q)
  {
    QuestionsWellFormed(c);
    QuestionIdsAreOneToFour(c);
  }

  /** The questions of every catalog condition are numbered 1 to 4. */
  lemma QuestionIdsAreOneToFour(c: Condition)
    requires c in AllConditions
    ensures |c.questions| == 4
    ensures forall i :: 0 <= i < |c.questions| ==> c.questions[i].id == i + 1
  {
    if c == Diabetes {
    } else if c == Hypertension {
    } else if c == LungCancer {
    } else if c == Stress {
    } else {
    }
  }

  /** The five conditions listed by the categories are exactly AllConditions,
      and every one of them has four questions with distinct ids, at least
      one option each, option scores in [0,10], and reaches the declared
      total possible score of 40 with its top-scoring answers. */
  lemma {:induction false} CatalogInvariants()
    ensures forall i, k :: 0 <= i < |HEALTH_DATA.assessments| && 0 <= k < |HEALTH_DATA.assessments[i].conditions|
              ==> HEALTH_DATA.assessments[i].conditions[k] in AllConditions
    ensures forall c :: c in AllConditions ==> WellFormedCondition(c)
    ensures forall c :: c in AllConditions ==>
              MaxTotal(c.questions) == TotalPossibleScore
  {
    CategoriesHoldAllConditions();
    forall c | c in AllConditions
      ensures WellFormedCondition(c)
      ensures MaxTotal(c.questions) == TotalPossibleScore
    {
      ConditionIsWellFormed(c);
      MaxTotalOfToppedOut(c.questions);
    }
  }

  lemma CategoriesHoldAllConditions()
    ensures forall i, k :: 0 <= i < |HEALTH_DATA.assessments| && 0 <= k < |HEALTH_DATA.assessments[i].conditions|
              ==> HEALTH_DATA.assessments[i].conditions[k] in AllConditions
  {
    var cats := HEALTH_DATA.assessments;
    forall i, k | 0 <= i < |cats| && 0 <= k < |cats[i].conditions|
      ensures cats[i].conditions[k] in AllConditions
    {
      if i == 0 {
        assert cats[0].conditions == [Diabetes, Hypertension];
      } else if i == 1 {
        assert cats[1].conditions == [LungCancer];
      } else if i == 2 {
        assert cats[2].conditions == [Stress];
      } else {
        assert cats[3].conditions == [Vision];
      }
    }
  }

  lemma {:induction false} MaxTotalOfToppedOut(qs: seq<Question>)
    requires forall q :: q in qs ==> QuestionTopsOut(q)
    ensures MaxTotal(qs) == MaxOptionScore * |qs|
  {
    if |qs| > 0 {
      assert forall q :: q in qs[..|qs| - 1] ==> q in qs;
      MaxTotalOfToppedOut(qs[..|qs| - 1]);
      assert QuestionTopsOut(qs[|qs| - 1]);
    }
  }
}
