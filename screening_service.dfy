/**
 * The screening endpoint: the feature record built from a validated request,
 * one call of the trained classifier, the threshold label and the rounded
 * output. The classifier and the threshold are loaded once at start-up and
 * never change; here they are the two parts of a `Service` value.
 */
module ScreeningService {
  import opened Wrappers
  import opened Rounding
  import opened ScreeningInput

  /** One cell of the single-row table handed to the classifier. */
  datatype Cell = Real(r: real) | Str(s: string) | Int(i: int)

  /** A row of named cells; the names and their order are what the classifier was trained on. */
  type FeatureRow = seq<(string, Cell)>

  const FeatureColumns: seq<string> :=
    ["age", "gender", "smoking_history", "bmi", "hypertension", "heart_disease"]

  /** The trained classifier (probability of the positive class) and the decision threshold. */
  datatype Service = Service(classifier: FeatureRow -> real, threshold: real)

  const HighRisk: string := "High Risk"
  const LowRisk: string := "Low Risk"

  datatype ScreeningResult = ScreeningResult(
    diabetes_risk_probability: real,
    screening_result: string,
    screening_threshold: real)

  /**
   * The feature record: six columns in the trained order; age, gender and
   * smoking history copied from the request, the rounded BMI, and the two
   * answers as their 0/1 encodings rather than as text.
   */
  function Features(d: Request): (row: FeatureRow)
    ensures |row| == |FeatureColumns|
    ensures forall i :: 0 <= i < |row| ==> row[i].0 == FeatureColumns[i]
    ensures row[0].1 == Real(d.age) && row[1].1 == Str(d.gender) && row[2].1 == Str(d.smoking_history)
    ensures row[3].1 == Real(Bmi(d)) && 3.2 <= row[3].1.r
    ensures row[4].1.Int? && (row[4].1.i == 1 <==> d.hypertension == "Yes")
    ensures row[5].1.Int? && (row[5].1.i == 1 <==> d.heart_disease == "Yes")
    ensures row[4].1.i in {0, 1} && row[5].1.i in {0, 1}
  {
    [ ("age", Real(d.age)),
      ("gender", Str(d.gender)),
      ("smoking_history", Str(d.smoking_history)),
      ("bmi", Real(Bmi(d))),
      ("hypertension", Int(HypertensionBin(d))),
      ("heart_disease", Int(HeartDiseaseBin(d))) ]
  }

  /**
   * Two requests give the same feature record exactly when they agree on
   * age, gender, smoking history, rounded BMI and both Yes/No answers:
   * the record drops height and weight only through the BMI.
   */
  lemma FeaturesIdentify(d1: Request, d2: Request)
    ensures Features(d1) == Features(d2) <==>
              && d1.age == d2.age && d1.gender == d2.gender
              && d1.smoking_history == d2.smoking_history && Bmi(d1) == Bmi(d2)
              && d1.hypertension == d2.hypertension && d1.heart_disease == d2.heart_disease
  {
    if Features(d1) == Features(d2) {
      assert Features(d1)[0] == Features(d2)[0];
      assert Features(d1)[1] == Features(d2)[1];
      assert Features(d1)[2] == Features(d2)[2];
      assert Features(d1)[3] == Features(d2)[3];
      AnswersRoundTrip(d1);
      AnswersRoundTrip(d2);
      assert Features(d1)[4] == Features(d2)[4];
      assert Features(d1)[5] == Features(d2)[5];
    }
  }

  /** The label: "High Risk" when the probability reaches the threshold, equality included. */
  function RiskLabel(prob: real, threshold: real): (outcome: string)
    ensures outcome == HighRisk <==> prob >= threshold
    ensures outcome == LowRisk <==> prob < threshold
  {
    if prob >= threshold then HighRisk else LowRisk
  }

  /**
   * Scoring a validated request: the label compares the unrounded
   * probability with the unrounded threshold; both are reported rounded to
   * 3 decimals, each within 0.0005 of the value it stands for.
   */
  function Screen(svc: Service, d: Request): (res: ScreeningResult)
    ensures res.screening_result == HighRisk <==> svc.classifier(Features(d)) >= svc.threshold
    ensures res.screening_result == LowRisk <==> svc.classifier(Features(d)) < svc.threshold
    ensures res.diabetes_risk_probability == RoundTo(svc.classifier(Features(d)), 3)
    ensures res.screening_threshold == RoundTo(svc.threshold, 3)
    ensures OnGrid(res.diabetes_risk_probability, 3)
    ensures Shift(Abs(res.diabetes_risk_probability - svc.classifier(Features(d))), 3) <= 0.5
    ensures OnGrid(res.screening_threshold, 3)
    ensures Shift(Abs(res.screening_threshold - svc.threshold), 3) <= 0.5
  {
    var prob := svc.classifier(Features(d));
    RoundToError(prob, 3);
    RoundToError(svc.threshold, 3);
    ScreeningResult(RoundTo(prob, 3), RiskLabel(prob, svc.threshold), RoundTo(svc.threshold, 3))
  }

  /**
   * The endpoint: a request that fails validation is rejected with its field
   * errors and never scored; a valid one is scored unchanged.
   */
  function ScreenRequest(svc: Service, raw: RawRequest): (r: Result<ScreeningResult, seq<FieldError>>)
    ensures r.Ok? <==> Valid(raw)
    ensures r.Ok? ==> r.value == Screen(svc, raw)
    ensures r.Err? ==> r.error != [] && r.error == ValidationErrors(raw)
  {
    match Validate(raw)
    case Ok(d) => Ok(Screen(svc, d))
    case Err(errs) => Err(errs)
  }

  // ---------------------------------------------------------------------------
  // Properties of the service

  /** The reported threshold is the same for every request. */
  lemma ThresholdIndependentOfRequest(svc: Service, raw1: RawRequest, raw2: RawRequest)
    requires Valid(raw1) && Valid(raw2)
    ensures ScreenRequest(svc, raw1).Ok? && ScreenRequest(svc, raw2).Ok?
    ensures ScreenRequest(svc, raw1).value.screening_threshold
         == ScreenRequest(svc, raw2).value.screening_threshold
  {
  }

  /** The result depends on the request only through its feature record. */
  lemma ResultDependsOnlyOnFeatures(svc: Service, d1: Request, d2: Request)
    ensures Features(d1) == Features(d2) ==> Screen(svc, d1) == Screen(svc, d2)
  {
  }

  /**
   * If the classifier's probability lies in [0, 1] — the code does not check
   * it — then so does the reported probability.
   */
  lemma ReportedProbabilityInUnitInterval(svc: Service, d: Request)
    ensures 0.0 <= svc.classifier(Features(d)) <= 1.0 ==>
              0.0 <= Screen(svc, d).diabetes_risk_probability <= 1.0
  {
    var prob := svc.classifier(Features(d));
    if 0.0 <= prob <= 1.0 {
      RoundToWithin(prob, 3, 0, 1000);
    }
  }

  /** A "High Risk" label always comes with a reported probability at least the reported threshold. */
  lemma HighRiskReportsProbabilityAtLeastThreshold(svc: Service, d: Request)
    ensures Screen(svc, d).screening_result == HighRisk ==>
              Screen(svc, d).diabetes_risk_probability >= Screen(svc, d).screening_threshold
  {
    var prob := svc.classifier(Features(d));
    if prob >= svc.threshold {
      RoundToMonotone(svc.threshold, prob, 3);
    }
  }

  /** A probability equal to the threshold is labelled "High Risk". */
  lemma AtThresholdIsHighRisk(svc: Service, d: Request)
    ensures svc.classifier(Features(d)) == svc.threshold ==>
              && Screen(svc, d).screening_result == HighRisk
              && Screen(svc, d).diabetes_risk_probability == Screen(svc, d).screening_threshold
  {
  }
}
