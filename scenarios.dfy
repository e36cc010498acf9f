/**
 * Concrete requests: the documented example request, boundary values that
 * validation refuses, and a probability/threshold pair on which the label
 * and the rounded figures in the response seem to disagree.
 */
module Scenarios {
  import opened Wrappers
  import opened Rounding
  import opened ScreeningInput
  import opened ScreeningService

  const Example: RawRequest := RawRequest(45.0, "Male", 1.72, 75.0, "never", "No", "No")

  /** The documented example is accepted; its BMI is 25.35 and both answers encode to 0. */
  lemma ExampleRequestFeatures()
    ensures Validate(Example).Ok?
    ensures Bmi(Example) == 25.35
    ensures Features(Example) ==
              [ ("age", Real(45.0)), ("gender", Str("Male")), ("smoking_history", Str("never")),
                ("bmi", Real(25.35)), ("hypertension", Int(0)), ("heart_disease", Int(0)) ]
  {
    var q := Quotient(Example);
    assert q == 75.0 / 2.9584;
    assert Shift(q, 2) == 7500.0 / 2.9584;
    assert 2535.0 <= Shift(q, 2) < 2535.2;
    assert RoundHalfEven(Shift(q, 2)) == 2535;
    assert Unshift(2535.0, 2) == 25.35;
  }

  /** Only the fields named in `failing` break their rule in `raw`. */
  lemma OnlyFailing(raw: RawRequest, failing: set<Field>)
    requires forall f :: f in failing <==> !FieldOk(raw, f)
    ensures (Age !in failing ==> CheckField(raw, Age) == [])
         && (Gender !in failing ==> CheckField(raw, Gender) == [])
         && (Height !in failing ==> CheckField(raw, Height) == [])
         && (Weight !in failing ==> CheckField(raw, Weight) == [])
         && (SmokingHistory !in failing ==> CheckField(raw, SmokingHistory) == [])
         && (Hypertension !in failing ==> CheckField(raw, Hypertension) == [])
         && (HeartDisease !in failing ==> CheckField(raw, HeartDisease) == [])
  {
  }

  /** Age 0 and age 120 are both refused, each with the bound it breaks. */
  lemma AgeBoundsAreStrict()
    ensures Validate(Example.(age := 0.0)) == Err([FieldError(Age, GreaterThan(0.0))])
    ensures Validate(Example.(age := 120.0)) == Err([FieldError(Age, LessThan(120.0))])
  {
    var low, high := Example.(age := 0.0), Example.(age := 120.0);
    OnlyFailing(low, {Age});
    OnlyFailing(high, {Age});
    ValidationErrorsUnfolded(low);
    ValidationErrorsUnfolded(high);
    assert CheckField(low, Age) == [FieldError(Age, GreaterThan(0.0))];
    assert CheckField(high, Age) == [FieldError(Age, LessThan(120.0))];
    assert ValidationErrors(low) == [FieldError(Age, GreaterThan(0.0))];
    assert ValidationErrors(high) == [FieldError(Age, LessThan(120.0))];
  }

  /** A height of 0 is refused before any BMI is computed, so nothing is scored. */
  lemma ZeroHeightIsNeverScored(svc: Service)
    ensures ScreenRequest(svc, Example.(height := 0.0)) == Err([FieldError(Height, GreaterThan(0.5))])
  {
    var raw := Example.(height := 0.0);
    OnlyFailing(raw, {Height});
    ValidationErrorsUnfolded(raw);
    assert CheckField(raw, Height) == [FieldError(Height, GreaterThan(0.5))];
    assert ValidationErrors(raw) == [FieldError(Height, GreaterThan(0.5))];
  }

  /** Literals are case-sensitive, and several failing fields are all reported, in field order. */
  lemma LiteralsAreCaseSensitive()
    ensures Validate(Example.(gender := "male", hypertension := "maybe"))
         == Err([FieldError(Gender, LiteralError(Genders)), FieldError(Hypertension, LiteralError(Answers))])
  {
    var raw := Example.(gender := "male", hypertension := "maybe");
    assert raw.gender != "Male" by { assert raw.gender[0] != "Male"[0]; }
    OnlyFailing(raw, {Gender, Hypertension});
    ValidationErrorsUnfolded(raw);
    assert CheckField(raw, Gender) == [FieldError(Gender, LiteralError(Genders))];
    assert CheckField(raw, Hypertension) == [FieldError(Hypertension, LiteralError(Answers))];
    assert ValidationErrors(raw)
        == [FieldError(Gender, LiteralError(Genders)), FieldError(Hypertension, LiteralError(Answers))];
  }

  /**
   * The label compares the unrounded values: a probability of 0.3006 under
   * a threshold of 0.3009 is "Low Risk", although both are reported as 0.301.
   */
  lemma RoundedFiguresMayTie()
    ensures var svc := Service(_ => 0.3006, 0.3009);
            var res := Screen(svc, Example);
            && res.screening_result == LowRisk
            && res.diabetes_risk_probability == 0.301
            && res.screening_threshold == 0.301
  {
    assert Shift(0.3006, 3) == 300.6;
    assert RoundHalfEven(300.6) == 301;
    assert Shift(0.3009, 3) == 300.9;
    assert RoundHalfEven(300.9) == 301;
    assert Unshift(301.0, 3) == 0.301;
  }

  /** A threshold exactly halfway between two 3-decimal figures is reported with the even last digit. */
  lemma MidpointThresholdRoundsToEven()
    ensures Screen(Service(_ => 0.5, 0.3125), Example).screening_threshold == 0.312
  {
    assert Shift(0.3125, 3) == 312.5;
    assert RoundHalfEven(312.5) == 312;
    assert Unshift(312.0, 3) == 0.312;
  }
}
