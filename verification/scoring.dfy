/** Risk scoring of a questionnaire: the total score over the answered
    questions, the flagged risk factors, and the first threshold whose range
    contains the total. */
module RiskScoring {
  import opened Wrappers
  import opened HealthCatalog

  /** The answers recorded so far, keyed by question id. */
  type Answers = map<int, AnswerOption>

  datatype Severity = High | Moderate {
    /** The string the assessment carries for this severity. */
    function Label(): (s: string)
      ensures s == "high" <==> High?
      ensures s == "moderate" <==> Moderate?
    {
      if High? then "high" else "moderate"
    }
  }

  datatype RiskFactor = RiskFactor(question: string, answer: string, severity: Severity)

  /** Scores at or above this are flagged as a risk factor. */
  const RiskFactorCutoff: int := 5
  /** Flagged scores at or above this are of high severity. */
  const HighSeverityCutoff: int := 10

  datatype Assessment = Assessment(
    conditionName: string,
    riskLevel: string,
    totalScore: int,
    message: string,
    colorCode: string,
    riskFactors: seq<RiskFactor>,
    maxPossibleScore: int)

  /** What an answered question adds to the total (0 when unanswered). */
  function Contribution(q: Question, answers: Answers): int {
    if q.id in answers then answers[q.id].score else 0
  }

  /** True iff the question is answered with a score at the risk-factor cutoff or above. */
  predicate Flagged(q: Question, answers: Answers) {
    q.id in answers && answers[q.id].score >= RiskFactorCutoff
  }

  function FactorOf(q: Question, o: AnswerOption): RiskFactor {
    RiskFactor(q.text, o.text, if o.score >= HighSeverityCutoff then High else Moderate)
  }

  /** The risk factor the question adds (none unless it is flagged). */
  function FactorsOf(q: Question, answers: Answers): seq<RiskFactor> {
    if Flagged(q, answers) then [FactorOf(q, answers[q.id])] else []
  }

  /** Reference definition of the total: the question list folded left to right. */
  function TotalScore(qs: seq<Question>, answers: Answers): int {
    if |qs| == 0 then 0
    else TotalScore(qs[..|qs| - 1], answers) + Contribution(qs[|qs| - 1], answers)
  }

  /** Reference definition of the risk factors, in question order. */
  function RiskFactors(qs: seq<Question>, answers: Answers): seq<RiskFactor> {
    if |qs| == 0 then []
    else RiskFactors(qs[..|qs| - 1], answers) + FactorsOf(qs[|qs| - 1], answers)
  }

  /* ---------------- Threshold selection ---------------- */

  predicate Matches(t: Threshold, total: int) {
    total >= t.rangeMin && total <= t.rangeMax
  }

  /** `thresholds.find(...)`: the first threshold whose range holds the total. */
  function FindThreshold(ts: seq<Threshold>, total: int): (r: Option<Threshold>)
    ensures r.None? <==> forall i :: 0 <= i < |ts| ==> !Matches(ts[i], total)
    ensures r.Some? ==> exists i :: 0 <= i < |ts| && ts[i] == r.value && Matches(r.value, total)
                          && forall j :: 0 <= j < i ==> !Matches(ts[j], total)
  {
    if |ts| == 0 then None
    else if Matches(ts[0], total) then Some(ts[0])
    else
      var r := FindThreshold(ts[1..], total);
      assert r.Some? ==> exists i :: 0 <= i < |ts| && ts[i] == r.value && Matches(r.value, total)
                          && forall j :: 0 <= j < i ==> !Matches(ts[j], total) by {
        if r.Some? {
          var i :| 0 <= i < |ts[1..]| && ts[1..][i] == r.value && Matches(r.value, total)
                   && forall j :: 0 <= j < i ==> !Matches(ts[1..][j], total);
          assert ts[i + 1] == r.value;
          assert forall j :: 1 <= j < i + 1 ==> ts[j] == ts[1..][j - 1];
        }
      }
      assert r.None? ==> forall i :: 0 <= i < |ts| ==> !Matches(ts[i], total) by {
        assert forall i :: 1 <= i < |ts| ==> ts[i] == ts[1..][i - 1];
      }
      r
  }

  /** The first matching threshold, falling back to the first of the table. */
  function SelectThreshold(ts: seq<Threshold>, total: int): (r: Threshold)
    requires |ts| > 0
    ensures (exists i :: 0 <= i < |ts| && Matches(ts[i], total)) ==>
              Matches(r, total)
              && (exists i :: 0 <= i < |ts| && ts[i] == r && forall j :: 0 <= j < i ==> !Matches(ts[j], total))
    ensures (forall i :: 0 <= i < |ts| ==> !Matches(ts[i], total)) ==> r == ts[0]
  {
    FindThreshold(ts, total).GetOr(ts[0])
  }

  /** Reference definition of the assessment the questionnaire submits. */
  function Assess(conditionName: string, qs: seq<Question>, answers: Answers, logic: RiskLogic): (r: Assessment)
    requires |logic.thresholds| > 0
    ensures r.totalScore == TotalScore(qs, answers)
    ensures r.riskFactors == RiskFactors(qs, answers)
    ensures var t := SelectThreshold(logic.thresholds, r.totalScore);
            r.riskLevel == t.level && r.message == t.message && r.colorCode == t.colorCode
    ensures (exists i :: 0 <= i < |logic.thresholds| && Matches(logic.thresholds[i], r.totalScore)) ==>
              exists i :: 0 <= i < |logic.thresholds| && r.riskLevel == logic.thresholds[i].level
                          && r.message == logic.thresholds[i].message
                          && Matches(logic.thresholds[i], r.totalScore)
                          && forall j :: 0 <= j < i ==> !Matches(logic.thresholds[j], r.totalScore)
    ensures (forall i :: 0 <= i < |logic.thresholds| ==> !Matches(logic.thresholds[i], r.totalScore))
              ==> r.riskLevel == logic.thresholds[0].level
    ensures r.conditionName == conditionName && r.maxPossibleScore == logic.totalPossibleScore
  {
    var total := TotalScore(qs, answers);
    var t := SelectThreshold(logic.thresholds, total);
    Assessment(conditionName, t.level, total, t.message, t.colorCode,
               RiskFactors(qs, answers), logic.totalPossibleScore)
  }

  /** The screen's scoring routine: one pass over the loaded questions
      accumulating the total and the risk factors, then a search of the
      threshold table. It agrees with the reference definition. */
  method CalculateRiskAssessment(conditionName: string, qs: seq<Question>, answers: Answers, logic: RiskLogic)
    returns (r: Assessment)
    requires |logic.thresholds| > 0
    ensures r == Assess(conditionName, qs, answers, logic)
  {
    var totalScore := 0;
    var riskFactors: seq<RiskFactor> := [];
    var i := 0;
    while i < |qs|
      invariant 0 <= i <= |qs|
      invariant totalScore == TotalScore(qs[..i], answers)
      invariant riskFactors == RiskFactors(qs[..i], answers)
    {
      var q := qs[i];
      assert qs[..i + 1][..i] == qs[..i];
      if q.id in answers {
        var ansObj := answers[q.id];
        totalScore := totalScore + ansObj.score;
        if ansObj.score >= RiskFactorCutoff {
          riskFactors := riskFactors + [RiskFactor(q.text, ansObj.text,
                                                   if ansObj.score >= HighSeverityCutoff then High else Moderate)];
        }
      }
      i := i + 1;
    }
    assert qs[..|qs|] == qs;

    var thresholds := logic.thresholds;
    var k := 0;
    var found: Option<Threshold> := None;
    while k < |thresholds| && found.None?
      invariant 0 <= k <= |thresholds|
      invariant found.None? ==> forall j :: 0 <= j < k ==> !Matches(thresholds[j], totalScore)
      invariant found.Some? ==> 0 < k && found.value == thresholds[k - 1]
                                && Matches(found.value, totalScore)
                                && forall j :: 0 <= j < k - 1 ==> !Matches(thresholds[j], totalScore)
      decreases |thresholds| - k
    {
      if totalScore >= thresholds[k].rangeMin && totalScore <= thresholds[k].rangeMax {
        found := Some(thresholds[k]);
      }
      k := k + 1;
    }
    if found.Some? {
      FindThresholdIsFirst(thresholds, totalScore, k - 1);
    }
    var result := if found.Some? then found.value else thresholds[0];
    r := Assessment(conditionName, result.level, totalScore, result.message, result.colorCode,
                    riskFactors, logic.totalPossibleScore);
  }

  /** The search returns the first match and no other. */
  lemma FindThresholdIsFirst(ts: seq<Threshold>, total: int, i: int)
    requires 0 <= i < |ts| && Matches(ts[i], total)
    requires forall j :: 0 <= j < i ==> !Matches(ts[j], total)
    ensures FindThreshold(ts, total) == Some(ts[i])
  {
    var r := FindThreshold(ts, total);
    var i' :| 0 <= i' < |ts| && ts[i'] == r.value && Matches(r.value, total)
              && forall j :: 0 <= j < i' ==> !Matches(ts[j], total);
    assert i' == i;
  }

  /* ---------------- Properties of the scoring ---------------- */

  /** The total is additive over a split of the question list. */
  lemma {:induction false} TotalScoreAppend(qs1: seq<Question>, qs2: seq<Question>, answers: Answers)
    ensures TotalScore(qs1 + qs2, answers) == TotalScore(qs1, answers) + TotalScore(qs2, answers)
    decreases |qs2|
  {
    if |qs2| > 0 {
      var qs := qs1 + qs2;
      assert qs[..|qs| - 1] == qs1 + qs2[..|qs2| - 1];
      assert qs[|qs| - 1] == qs2[|qs2| - 1];
      TotalScoreAppend(qs1, qs2[..|qs2| - 1], answers);
    } else {
      assert qs1 + qs2 == qs1;
    }
  }

  /** The risk factors of a split list are those of the first part followed
      by those of the second: question order is kept. */
  lemma {:induction false} RiskFactorsAppend(qs1: seq<Question>, qs2: seq<Question>, answers: Answers)
    ensures RiskFactors(qs1 + qs2, answers) == RiskFactors(qs1, answers) + RiskFactors(qs2, answers)
    decreases |qs2|
  {
    if |qs2| > 0 {
      var qs := qs1 + qs2;
      assert qs[..|qs| - 1] == qs1 + qs2[..|qs2| - 1];
      assert qs[|qs| - 1] == qs2[|qs2| - 1];
      RiskFactorsAppend(qs1, qs2[..|qs2| - 1], answers);
    } else {
      assert qs1 + qs2 == qs1;
    }
  }

  /** Questions without an answer contribute neither score nor risk factors;
      in particular an empty answer set scores 0 with no risk factors. */
  lemma {:induction false} UnansweredContributeNothing(qs: seq<Question>, answers: Answers)
    requires forall q :: q in qs ==> q.id !in answers
    ensures TotalScore(qs, answers) == 0
    ensures RiskFactors(qs, answers) == []
  {
    if |qs| > 0 {
      assert qs[|qs| - 1] in qs;
      assert forall q :: q in qs[..|qs| - 1] ==> q in qs;
      UnansweredContributeNothing(qs[..|qs| - 1], answers);
    }
  }

  /** Every risk factor comes from an answered question scoring at least the
      cutoff, and carries that question's text, the chosen answer's text, and
      severity High exactly when the score reaches the high cutoff. */
  lemma {:induction false} RiskFactorsSound(qs: seq<Question>, answers: Answers, f: RiskFactor)
    requires f in RiskFactors(qs, answers)
    ensures exists q :: q in qs && q.id in answers && answers[q.id].score >= RiskFactorCutoff
                        && f.question == q.text && f.answer == answers[q.id].text
                        && (f.severity == High <==> answers[q.id].score >= HighSeverityCutoff)
  {
    var last := qs[|qs| - 1];
    if f in RiskFactors(qs[..|qs| - 1], answers) {
      RiskFactorsSound(qs[..|qs| - 1], answers, f);
      assert forall q :: q in qs[..|qs| - 1] ==> q in qs;
    } else {
      assert f in FactorsOf(last, answers);
      assert last in qs;
    }
  }

  /** Every answered question scoring at least the cutoff yields its risk
      factor. */
  lemma {:induction false} RiskFactorsComplete(qs: seq<Question>, answers: Answers, q: Question)
    requires q in qs && Flagged(q, answers)
    ensures FactorOf(q, answers[q.id]) in RiskFactors(qs, answers)
  {
    var last := qs[|qs| - 1];
    if q == last {
      assert FactorsOf(last, answers) == [FactorOf(q, answers[q.id])];
    } else {
      assert q in qs[..|qs| - 1] by {
        var k :| 0 <= k < |qs| && qs[k] == q;
        assert k < |qs| - 1;
        assert qs[..|qs| - 1][k] == q;
      }
      RiskFactorsComplete(qs[..|qs| - 1], answers, q);
    }
  }

  /** Each answer, when present, is one of its question's options. */
  ghost predicate ValidAnswers(qs: seq<Question>, answers: Answers) {
    forall q :: q in qs && q.id in answers ==> answers[q.id] in q.options
  }

  /** With option scores in range, the total lies between 0 and the sum of
      the questions' top scores. */
  lemma {:induction false} TotalScoreBounded(qs: seq<Question>, answers: Answers)
    requires ValidAnswers(qs, answers)
    requires forall q :: q in qs ==> ScoresInRange(q)
    ensures 0 <= TotalScore(qs, answers) <= MaxTotal(qs)
  {
    if |qs| > 0 {
      var last := qs[|qs| - 1];
      assert forall q :: q in qs[..|qs| - 1] ==> q in qs;
      assert last in qs;
      TotalScoreBounded(qs[..|qs| - 1], answers);
      if last.id in answers {
        assert answers[last.id] in last.options;
      }
    }
  }

  /* ---------------- The shipped threshold table ---------------- */

  /** The shipped thresholds are contiguous from 0 to the total possible
      score, so every score in that range is matched by exactly one of them. */
  lemma ShippedThresholdsPartition(total: int)
    ensures Thresholds[0].rangeMin == 0
    ensures forall i :: 0 <= i < |Thresholds| - 1 ==> Thresholds[i + 1].rangeMin == Thresholds[i].rangeMax + 1
    ensures Thresholds[|Thresholds| - 1].rangeMax == TotalPossibleScore
    ensures 0 <= total <= TotalPossibleScore ==>
              exists i :: 0 <= i < |Thresholds| && Matches(Thresholds[i], total)
                          && forall j :: 0 <= j < |Thresholds| && j != i ==> !Matches(Thresholds[j], total)
  {
    var ts := Thresholds;
    assert |ts| == 3;
    assert ts[0].rangeMin == 0 && ts[0].rangeMax == 10;
    assert ts[1].rangeMin == 11 && ts[1].rangeMax == 25;
    assert ts[2].rangeMin == 26 && ts[2].rangeMax == 40;
    assert TotalPossibleScore == 40;
    if 0 <= total <= 40 {
      var i := if total <= 10 then 0 else if total <= 25 then 1 else 2;
      assert Matches(ts[i], total);
      assert forall j :: 0 <= j < |ts| && j != i ==> !Matches(ts[j], total);
    }
  }

  /** With the shipped table, 0..10 is Low, 11..25 Moderate, 26..40 High;
      any score outside [0,40] falls back to the first threshold, Low. */
  lemma {:induction false} ShippedRiskLevels(total: int)
    ensures SelectThreshold(Thresholds, total).level == LowRiskLevel <==> (total <= 10 || total > 40)
    ensures SelectThreshold(Thresholds, total).level == ModerateRiskLevel <==> 11 <= total <= 25
    ensures SelectThreshold(Thresholds, total).level == HighRiskLevel <==> 26 <= total <= 40
  {
    var t := SelectThreshold(Thresholds, total);
    if 0 <= total <= 10 {
      FindThresholdIsFirst(Thresholds, total, 0);
    } else if 11 <= total <= 25 {
      FindThresholdIsFirst(Thresholds, total, 1);
    } else if 26 <= total <= 40 {
      FindThresholdIsFirst(Thresholds, total, 2);
    } else {
      assert forall i :: 0 <= i < |Thresholds| ==> !Matches(Thresholds[i], total);
    }
  }

  /** Any catalog condition answered with its own options scores within
      [0, total possible score], so some threshold always matches and the
      fallback to the first threshold never fires. The condition is given by
      its position `k` in AllConditions, so every one of the five is covered
      without the solver comparing a condition against the whole catalog. */
  lemma CatalogScoresNeverFallBack(k: int, answers: Answers)
    requires 0 <= k < |AllConditions|
    requires ValidAnswers(AllConditions[k].questions, answers)
    ensures 0 <= TotalScore(AllConditions[k].questions, answers) <= TotalPossibleScore
    ensures FindThreshold(Thresholds, TotalScore(AllConditions[k].questions, answers)).Some?
  {
    var c := AllConditions[k];
    ConditionIsWellFormed(c);
    MaxTotalOfToppedOut(c.questions);
    TotalScoreBounded(c.questions, answers);
    ShippedThresholdsPartition(TotalScore(c.questions, answers));
  }

  /** Diabetes answered 10, 10, 0, 10 totals 30: High Risk with three risk factors. */
  lemma DiabetesHighRiskScenario()
    ensures var answers := map[1 := Diabetes.questions[0].options[0], 2 := Diabetes.questions[1].options[0],
                               3 := Diabetes.questions[2].options[0], 4 := Diabetes.questions[3].options[0]];
            var r := Assess(Diabetes.name, Diabetes.questions, answers, ShippedRiskLogic);
            r.totalScore == 30 && r.riskLevel == HighRiskLevel && |r.riskFactors| == 3
  {
    var answers := map[1 := Diabetes.questions[0].options[0], 2 := Diabetes.questions[1].options[0],
                       3 := Diabetes.questions[2].options[0], 4 := Diabetes.questions[3].options[0]];
    var qs := Diabetes.questions;
    assert qs[..1][..0] == [];
    assert qs[..2][..1] == qs[..1];
    assert qs[..3][..2] == qs[..2];
    assert qs[..4][..3] == qs[..3];
    assert qs[..4] == qs;
    assert TotalScore(qs[..1], answers) == 10;
    assert |RiskFactors(qs[..1], answers)| == 1;
    assert |RiskFactors(qs[..2], answers)| == 2;
    assert TotalScore(qs[..2], answers) == 20;
    assert TotalScore(qs[..3], answers) == 20;
    assert TotalScore(qs, answers) == 30;
    assert |RiskFactors(qs[..3], answers)| == 2;
    ShippedRiskLevels(30);
  }
}
