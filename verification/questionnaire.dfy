/** The questionnaire screen's session: loading the questions of the chosen
    condition, recording answers, moving between questions, the completion
    flag that gates submission, routing on the risk level, and reset. Each
    handler is one atomic step; the completion effect runs right after any
    step that changes the answers or the questions. */
module QuestionnaireSession {
  import opened Wrappers
  import opened HealthCatalog
  import opened RiskScoring

  /** The navigation parameters the screen is opened with. */
  datatype RouteParams = RouteParams(conditionId: string, conditionName: string)

  /** Used when the screen is opened without parameters. */
  const DefaultParams: RouteParams := RouteParams("diabetes", "Diabetes")

  datatype Session = Session(
    params: RouteParams,
    questions: seq<Question>,
    answers: Answers,
    index: int,
    allAnswered: bool)

  /** The three result screens. */
  datatype ResultScreen = LowRisk | ModerateRisk | HighRisk

  /** What pressing Submit does: nothing, or navigate with the assessment. */
  datatype Submission = Ignored | Navigate(screen: ResultScreen, assessment: Assessment)

  /** Outcome of the load effect: the questions, or the not-available notice
      followed by navigating back. */
  datatype LoadOutcome = Loaded(session: Session) | NotAvailable

  /** The state right after the screen mounts. */
  function Mount(params: Option<RouteParams>): (s: Session)
    ensures s.params == (if params.Some? then params.value else DefaultParams)
    ensures s.questions == [] && s.answers == map[] && s.index == 0 && !s.allAnswered
  {
    Session(params.GetOr(DefaultParams), [], map[], 0, false)
  }

  /** The completion effect: once questions are loaded, the flag says whether
      the number of recorded answers equals the number of questions. */
  function SyncCompletion(s: Session): (r: Session)
    ensures r.params == s.params && r.questions == s.questions
    ensures r.answers == s.answers && r.index == s.index
    ensures |s.questions| > 0 ==> (r.allAnswered <==> |s.answers| == |s.questions|)
    ensures |s.questions| == 0 ==> r.allAnswered == s.allAnswered
  {
    if |s.questions| > 0 then s.(allAnswered := |s.answers| == |s.questions|) else s
  }

  /** The loop over the catalog's categories, stopping at the first one that
      holds a condition with the id. */
  method LookupQuestions(data: HealthData, conditionId: string) returns (found: bool, questions: seq<Question>)
    ensures found <==> InCatalog(data.assessments, conditionId)
    ensures found ==> exists c :: FindCondition(data.assessments, conditionId) == Some(c)
                                  && c.id == conditionId && c.questions == questions
  {
    var cats := data.assessments;
    found := false;
    questions := [];
    var i := 0;
    while i < |cats|
      invariant 0 <= i <= |cats|
      invariant !found ==> FindCondition(cats, conditionId) == FindCondition(cats[i..], conditionId)
      invariant found ==> exists c :: FindCondition(cats, conditionId) == Some(c) && c.questions == questions
    {
      var cond := FindInCategory(cats[i].conditions, conditionId);
      assert cats[i..][0] == cats[i] && cats[i..][1..] == cats[i + 1..];
      if cond.Some? {
        questions := cond.value.questions;
        found := true;
        break;
      }
      i := i + 1;
    }
  }

  /** The load effect: the questions of the condition named by the route
      parameters, or the not-available path. */
  function LoadQuestions(s: Session): (r: LoadOutcome)
    ensures r.NotAvailable? <==> s.params.conditionId !in CatalogIds
    ensures r.Loaded? ==> exists c :: c in AllConditions && c.id == s.params.conditionId
                                      && r.session == SyncCompletion(s.(questions := c.questions))
  {
    var found := FindCondition(HEALTH_DATA.assessments, s.params.conditionId);
    LookupFindsExactlyCatalogIds(s.params.conditionId);
    CategoriesHoldAllConditions();
    match found
    case Some(c) => Loaded(SyncCompletion(s.(questions := c.questions)))
    case None => NotAvailable
  }

  /** Records `opt` as the answer to `questionId`, replacing any earlier
      answer, and advances to the next question unless this is the last. */
  function HandleSelect(s: Session, questionId: int, opt: AnswerOption): (r: Session)
    ensures questionId in r.answers && r.answers[questionId] == opt
    ensures forall k :: k != questionId ==> (k in r.answers <==> k in s.answers)
    ensures forall k :: k != questionId && k in s.answers ==> r.answers[k] == s.answers[k]
    ensures |r.answers| == |s.answers| + (if questionId in s.answers then 0 else 1)
    ensures r.questions == s.questions && r.params == s.params
    ensures s.index <= r.index <= s.index + 1
    ensures r.index == s.index + 1 <==> s.index < |s.questions| - 1
  {
    var recorded := s.(answers := s.answers[questionId := opt]);
    var advanced := if s.index < |s.questions| - 1 then recorded.(index := s.index + 1) else recorded;
    SyncCompletion(advanced)
  }

  /** Moves one question forward, unless on the last one. */
  function GoToNextQuestion(s: Session): (r: Session)
    ensures r.params == s.params
    ensures r.questions == s.questions && r.answers == s.answers && r.allAnswered == s.allAnswered
    ensures s.index <= r.index <= s.index + 1
    ensures r.index == s.index <==> s.index >= |s.questions| - 1
  {
    if s.index < |s.questions| - 1 then s.(index := s.index + 1) else s
  }

  /** Moves one question back, unless on the first one. */
  function GoToPrevQuestion(s: Session): (r: Session)
    ensures r.params == s.params
    ensures r.questions == s.questions && r.answers == s.answers && r.allAnswered == s.allAnswered
    ensures s.index - 1 <= r.index <= s.index
    ensures r.index == s.index <==> s.index <= 0
  {
    if s.index > 0 then s.(index := s.index - 1) else s
  }

  /** The result screen chosen from the risk level string. */
  function RouteFor(level: string): (r: ResultScreen)
    ensures r == LowRisk <==> level == LowRiskLevel
    ensures r == ModerateRisk <==> level == ModerateRiskLevel
    ensures r == HighRisk <==> level != LowRiskLevel && level != ModerateRiskLevel
  {
    if level == LowRiskLevel then LowRisk
    else if level == ModerateRiskLevel then ModerateRisk
    else HighRisk
  }

  /** Submit: nothing unless the completion flag is set; otherwise score the
      session against the shipped risk logic and route on the level. */
  function HandleSubmit(s: Session): (r: Submission)
    ensures r.Ignored? <==> !s.allAnswered
    ensures r.Navigate? ==> r.assessment.totalScore == TotalScore(s.questions, s.answers)
                            && r.assessment.conditionName == s.params.conditionName
                            && r.screen == RouteFor(r.assessment.riskLevel)
    ensures r.Navigate? ==> r.assessment == Assess(s.params.conditionName, s.questions, s.answers, ShippedRiskLogic)
  {
    if !s.allAnswered then Ignored
    else
      var assessment := Assess(s.params.conditionName, s.questions, s.answers, ShippedRiskLogic);
      Navigate(RouteFor(assessment.riskLevel), assessment)
  }

  /** Reset: clear the answers and return to the first question. */
  function ResetQuestionnaire(s: Session): (r: Session)
    ensures r.answers == map[] && r.index == 0
    ensures r.questions == s.questions && r.params == s.params
    ensures |s.questions| > 0 ==> !r.allAnswered
  {
    SyncCompletion(s.(answers := map[], index := 0))
  }

  /* ---------------- Session invariant ---------------- */

  /** Every answer key is the id of a loaded question. */
  ghost predicate KeysAreQuestionIds(qs: seq<Question>, answers: Answers) {
    forall k :: k in answers ==> exists q :: q in qs && q.id == k
  }

  /** The states the screen can reach: loaded questions (none yet, or a
      catalog condition's) with distinct ids, option scores in range and a
      best total within the declared total possible score; the index on a
      question; answers only for loaded questions and drawn from their
      options; and the flag in step with the answers. */
  ghost predicate Valid(s: Session) {
    && DistinctQuestionIds(s.questions)
    && (forall q :: q in s.questions ==> ScoresInRange(q))
    && MaxTotal(s.questions) <= TotalPossibleScore
    && 0 <= s.index && (|s.questions| > 0 ==> s.index < |s.questions|) && (s.questions == [] ==> s.index == 0)
    && KeysAreQuestionIds(s.questions, s.answers)
    && ValidAnswers(s.questions, s.answers)
    && (s.allAnswered <==> |s.questions| > 0 && |s.answers| == |s.questions|)
  }

  /** The user events the rendered screen offers: an option of the active
      question, the arrows, and Reset. */
  datatype Event = Choose(opt: AnswerOption) | Next | Prev | Reset

  /** The screen renders nothing until a question is active, so events need one. */
  predicate Possible(s: Session, e: Event) {
    && 0 <= s.index < |s.questions|
    && (e.Choose? ==> e.opt in s.questions[s.index].options)
  }

  function Step(s: Session, e: Event): (r: Session)
    requires Possible(s, e)
    ensures r.questions == s.questions
  {
    match e
    case Choose(opt) => HandleSelect(s, s.questions[s.index].id, opt)
    case Next => GoToNextQuestion(s)
    case Prev => GoToPrevQuestion(s)
    case Reset => ResetQuestionnaire(s)
  }

  lemma MountIsValid(params: Option<RouteParams>)
    ensures Valid(Mount(params))
  {
  }

  lemma LoadKeepsValid(s: Session)
    requires Valid(s) && s.questions == [] && s.answers == map[]
    ensures LoadQuestions(s).Loaded? ==> Valid(LoadQuestions(s).session)
  {
    if LoadQuestions(s).Loaded? {
      var c :| c in AllConditions && c.id == s.params.conditionId
               && LoadQuestions(s).session == SyncCompletion(s.(questions := c.questions));
      ConditionIsWellFormed(c);
      MaxTotalOfToppedOut(c.questions);
    }
  }

  /** Every event the screen offers keeps the session invariant: in
      particular the question index stays within [0, |questions| - 1]. */
  lemma StepKeepsValid(s: Session, e: Event)
    requires Valid(s) && Possible(s, e)
    ensures Valid(Step(s, e))
  {
    var r := Step(s, e);
    match e
    case Choose(opt) =>
      var q := s.questions[s.index];
      assert q in s.questions;
      forall k | k in r.answers ensures exists q' :: q' in r.questions && q'.id == k {
        if k != q.id {
          assert k in s.answers;
        }
      }
      forall q' | q' in r.questions && q'.id in r.answers ensures r.answers[q'.id] in q'.options {
        if q'.id == q.id {
          var a, b :| 0 <= a < |s.questions| && s.questions[a] == q' && 0 <= b < |s.questions| && s.questions[b] == q;
          assert a == b;
        }
      }
      AnsweredCountBounded(s.questions, r.answers);
    case Next =>
    case Prev =>
    case Reset =>
  }

  /** Answer keys drawn from distinct question ids are at most as many as the questions. */
  lemma AnsweredCountBounded(qs: seq<Question>, answers: Answers)
    requires DistinctQuestionIds(qs) && KeysAreQuestionIds(qs, answers)
    ensures |answers| <= |qs|
    ensures |answers| == |qs| <==> forall q :: q in qs ==> q.id in answers
  {
    var ids := QuestionIdSet(qs);
    DistinctIdsCount(qs);
    assert answers.Keys <= ids;
    SubsetCardinality(answers.Keys, ids);
    if forall q :: q in qs ==> q.id in answers {
      assert ids <= answers.Keys;
    }
  }

  function QuestionIdSet(qs: seq<Question>): (ids: set<int>)
    ensures forall k :: k in ids <==> exists q :: q in qs && q.id == k
  {
    set q | q in qs :: q.id
  }

  lemma {:induction false} DistinctIdsCount(qs: seq<Question>)
    requires DistinctQuestionIds(qs)
    ensures |QuestionIdSet(qs)| == |qs|
  {
    if |qs| > 0 {
      var init := qs[..|qs| - 1];
      assert DistinctQuestionIds(init) by {
        forall i, j | 0 <= i < j < |init| ensures init[i].id != init[j].id {
          assert init[i] == qs[i] && init[j] == qs[j];
        }
      }
      DistinctIdsCount(init);
      IdSetOfSnoc(qs);
      LastIdIsNew(qs);
    }
  }

  /** The ids of a non-empty list are those of all but its last question,
      plus the last one's. */
  lemma IdSetOfSnoc(qs: seq<Question>)
    requires |qs| > 0
    ensures QuestionIdSet(qs) == QuestionIdSet(qs[..|qs| - 1]) + {qs[|qs| - 1].id}
  {
    var init := qs[..|qs| - 1];
    forall k ensures k in QuestionIdSet(qs) <==> k in QuestionIdSet(init) + {qs[|qs| - 1].id} {
      if k in QuestionIdSet(qs) {
        var q :| q in qs && q.id == k;
        var i :| 0 <= i < |qs| && qs[i] == q;
        if i < |qs| - 1 {
          assert init[i] == q;
        }
      }
      if k in QuestionIdSet(init) {
        var q :| q in init && q.id == k;
        var i :| 0 <= i < |init| && init[i] == q;
        assert qs[i] == q;
      }
    }
  }

  /** With distinct ids, the last question's id is not among the others'. */
  lemma LastIdIsNew(qs: seq<Question>)
    requires |qs| > 0 && DistinctQuestionIds(qs)
    ensures qs[|qs| - 1].id !in QuestionIdSet(qs[..|qs| - 1])
  {
    var init := qs[..|qs| - 1];
    forall q | q in init ensures q.id != qs[|qs| - 1].id {
      var i :| 0 <= i < |init| && init[i] == q;
      assert qs[i] == q;
    }
  }

  /** A subset is no larger than its superset, and is the whole set exactly
      when it is as large. */
  lemma SubsetCardinality(a: set<int>, b: set<int>)
    requires a <= b
    ensures |a| <= |b|
    ensures |a| == |b| <==> a == b
  {
    assert b == a + (b - a);
    assert a * (b - a) == {};
    if |a| == |b| {
      assert |b - a| == 0;
    }
  }

  /** Submission goes ahead exactly when every loaded question has an
      answer; the answered count equals the question count iff that holds. */
  lemma SubmitGatedOnCompletion(s: Session)
    requires Valid(s)
    ensures HandleSubmit(s).Navigate? <==> |s.questions| > 0 && forall q :: q in s.questions ==> q.id in s.answers
  {
    AnsweredCountBounded(s.questions, s.answers);
  }

  /** A submitted questionnaire scores within [0,40] and routes 0..10 to
      LowRisk, 11..25 to ModerateRisk and 26..40 to HighRisk. */
  lemma SubmitRoutesByScore(s: Session)
    requires Valid(s) && s.allAnswered
    ensures var r := HandleSubmit(s);
            && r.Navigate?
            && 0 <= r.assessment.totalScore <= TotalPossibleScore
            && (r.screen == LowRisk <==> r.assessment.totalScore <= 10)
            && (r.screen == ModerateRisk <==> 11 <= r.assessment.totalScore <= 25)
            && (r.screen == HighRisk <==> 26 <= r.assessment.totalScore)
  {
    TotalScoreBounded(s.questions, s.answers);
    ShippedRiskLevels(TotalScore(s.questions, s.answers));
  }
}
