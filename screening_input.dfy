/**
 * The screening request as the service receives it, its validation and the
 * features computed from a validated request (BMI and the two Yes/No answers
 * encoded as 1/0).
 */
module ScreeningInput {
  import opened Wrappers
  import opened Rounding

  /** A request with every field present and of the right type, not yet range-checked. */
  datatype RawRequest = RawRequest(
    age: real,
    gender: string,
    height: real,
    weight: real,
    smoking_history: string,
    hypertension: string,
    heart_disease: string)

  /** The request fields, in declaration order. */
  datatype Field = Age | Gender | Height | Weight | SmokingHistory | Hypertension | HeartDisease

  const Fields: seq<Field> := [Age, Gender, Height, Weight, SmokingHistory, Hypertension, HeartDisease]

  const Genders: seq<string> := ["Male", "Female", "Other"]
  const SmokingHistories: seq<string> := ["never", "former", "current", "ever", "not current"]
  const Answers: seq<string> := ["Yes", "No"]

  /** The constraint each field failed: a strict lower bound, a strict upper bound or a set of literals. */
  datatype Violation = GreaterThan(bound: real) | LessThan(bound: real) | LiteralError(expected: seq<string>)

  datatype FieldError = FieldError(field: Field, violation: Violation)

  /** The value a field holds, as a number or as text. */
  datatype Value = Number(x: real) | Text(s: string)

  function ValueOf(raw: RawRequest, f: Field): Value
  {
    match f
    case Age => Number(raw.age)
    case Gender => Text(raw.gender)
    case Height => Number(raw.height)
    case Weight => Number(raw.weight)
    case SmokingHistory => Text(raw.smoking_history)
    case Hypertension => Text(raw.hypertension)
    case HeartDisease => Text(raw.heart_disease)
  }

  /** The constraints each field declares, as pydantic reports them when broken. */
  function ConstraintsOf(f: Field): seq<Violation>
  {
    match f
    case Age => [GreaterThan(0.0), LessThan(120.0)]
    case Gender => [LiteralError(Genders)]
    case Height => [GreaterThan(0.5), LessThan(2.5)]
    case Weight => [GreaterThan(20.0), LessThan(300.0)]
    case SmokingHistory => [LiteralError(SmokingHistories)]
    case Hypertension => [LiteralError(Answers)]
    case HeartDisease => [LiteralError(Answers)]
  }

  /** `v` breaks the constraint `viol`. */
  predicate Breaks(v: Value, viol: Violation)
  {
    match viol
    case GreaterThan(b) => v.Number? && v.x <= b
    case LessThan(b) => v.Number? && v.x >= b
    case LiteralError(expected) => v.Text? && v.s !in expected
  }

  /** `v` breaks none of the constraints `cs`. */
  predicate NoneBroken(v: Value, cs: seq<Violation>)
  {
    cs == [] || (!Breaks(v, cs[0]) && NoneBroken(v, cs[1..]))
  }

  lemma NoneBrokenShort(v: Value, cs: seq<Violation>)
    requires 1 <= |cs| <= 2
    ensures NoneBroken(v, cs) <==> !Breaks(v, cs[0]) && (|cs| == 2 ==> !Breaks(v, cs[1]))
  {
    if |cs| == 2 {
      assert cs[1..][1..] == [];
    }
  }

  /**
   * Each field's own rule, written field by field; a field keeps it exactly
   * when its value breaks none of the field's declared constraints.
   */
  predicate FieldOk(raw: RawRequest, f: Field)
    ensures FieldOk(raw, f) <==> NoneBroken(ValueOf(raw, f), ConstraintsOf(f))
  {
    NoneBrokenShort(ValueOf(raw, f), ConstraintsOf(f));
    match f
    case Age => 0.0 < raw.age < 120.0
    case Gender => raw.gender == "Male" || raw.gender == "Female" || raw.gender == "Other"
    case Height => 0.5 < raw.height < 2.5
    case Weight => 20.0 < raw.weight < 300.0
    case SmokingHistory =>
      || raw.smoking_history == "never" || raw.smoking_history == "former"
      || raw.smoking_history == "current" || raw.smoking_history == "ever"
      || raw.smoking_history == "not current"
    case Hypertension => raw.hypertension == "Yes" || raw.hypertension == "No"
    case HeartDisease => raw.heart_disease == "Yes" || raw.heart_disease == "No"
  }

  /** A valid request: every field keeps its rule. */
  predicate Valid(raw: RawRequest)
    ensures Valid(raw) <==> forall f :: FieldOk(raw, f)
  {
    && FieldOk(raw, Age) && FieldOk(raw, Gender) && FieldOk(raw, Height) && FieldOk(raw, Weight)
    && FieldOk(raw, SmokingHistory) && FieldOk(raw, Hypertension) && FieldOk(raw, HeartDisease)
  }

  /** A request that passed validation. */
  type Request = raw: RawRequest | Valid(raw)
    witness RawRequest(45.0, "Male", 1.72, 75.0, "never", "No", "No")

  // ---------------------------------------------------------------------------
  // Validation

  /** A strict range check: at most one error, for the first bound that fails. */
  function CheckRange(f: Field, x: real, lo: real, hi: real): seq<FieldError>
  {
    if !(x > lo) then [FieldError(f, GreaterThan(lo))]
    else if !(x < hi) then [FieldError(f, LessThan(hi))]
    else []
  }

  /** A case-sensitive literal check. */
  function CheckLiteral(f: Field, s: string, choices: seq<string>): seq<FieldError>
  {
    if s in choices then [] else [FieldError(f, LiteralError(choices))]
  }

  /**
   * The errors of one field: none when the field keeps its rule, otherwise
   * one error naming the field and a declared constraint its value breaks.
   */
  function CheckField(raw: RawRequest, f: Field): (errs: seq<FieldError>)
    ensures errs == [] <==> FieldOk(raw, f)
    ensures errs != [] ==> errs == [FieldError(f, errs[0].violation)]
    ensures errs != [] ==> errs[0].violation in ConstraintsOf(f) && Breaks(ValueOf(raw, f), errs[0].violation)
  {
    match f
    case Age => CheckRange(Age, raw.age, 0.0, 120.0)
    case Gender => CheckLiteral(Gender, raw.gender, Genders)
    case Height => CheckRange(Height, raw.height, 0.5, 2.5)
    case Weight => CheckRange(Weight, raw.weight, 20.0, 300.0)
    case SmokingHistory => CheckLiteral(SmokingHistory, raw.smoking_history, SmokingHistories)
    case Hypertension => CheckLiteral(Hypertension, raw.hypertension, Answers)
    case HeartDisease => CheckLiteral(HeartDisease, raw.heart_disease, Answers)
  }

  /** The errors of the given fields, in the order of the fields. */
  function CollectErrors(raw: RawRequest, fs: seq<Field>): seq<FieldError>
  {
    if fs == [] then [] else CheckField(raw, fs[0]) + CollectErrors(raw, fs[1..])
  }

  function ErrorFields(errs: seq<FieldError>): seq<Field>
  {
    if errs == [] then [] else [errs[0].field] + ErrorFields(errs[1..])
  }

  /**
   * Every error of every field of the request: empty exactly for a valid
   * request, naming exactly the failing fields in declaration order, each
   * with a declared constraint the field's value breaks.
   */
  function ValidationErrors(raw: RawRequest): (errs: seq<FieldError>)
    ensures errs == [] <==> Valid(raw)
    ensures ErrorFields(errs) == FailingFields(raw, Fields)
    ensures forall e :: e in errs ==>
              e.violation in ConstraintsOf(e.field) && Breaks(ValueOf(raw, e.field), e.violation)
  {
    CollectErrorsNamesFailingFields(raw, Fields);
    FailingFieldsEmptyIffValid(raw);
    forall e | e in CollectErrors(raw, Fields)
      ensures e.violation in ConstraintsOf(e.field) && Breaks(ValueOf(raw, e.field), e.violation)
    {
      CollectErrorsAreTrue(raw, Fields, e);
    }
    ErrorFieldsEmpty(CollectErrors(raw, Fields));
    CollectErrors(raw, Fields)
  }

  /** The errors of a list of fields, one field at a time. */
  lemma {:induction false} CollectErrorsUnfolded(raw: RawRequest, fs: seq<Field>, i: nat)
    requires i <= |fs|
    ensures CollectErrors(raw, fs) == ErrorsUpTo(raw, fs, i) + CollectErrors(raw, fs[i..])
  {
    if i > 0 {
      CollectErrorsUnfolded(raw, fs, i - 1);
      assert fs[i - 1..][1..] == fs[i..];
      assert ErrorsUpTo(raw, fs, i) == ErrorsUpTo(raw, fs, i - 1) + CheckField(raw, fs[i - 1]);
    }
  }

  /** The errors of the first `i` fields, concatenated left to right. */
  function ErrorsUpTo(raw: RawRequest, fs: seq<Field>, i: nat): seq<FieldError>
    requires i <= |fs|
  {
    if i == 0 then [] else ErrorsUpTo(raw, fs, i - 1) + CheckField(raw, fs[i - 1])
  }

  /** The errors of the whole request, field by field. */
  lemma ValidationErrorsUnfolded(raw: RawRequest)
    ensures ValidationErrors(raw)
         == CheckField(raw, Age) + CheckField(raw, Gender) + CheckField(raw, Height)
          + CheckField(raw, Weight) + CheckField(raw, SmokingHistory)
          + CheckField(raw, Hypertension) + CheckField(raw, HeartDisease)
  {
    var fs := Fields;
    CollectErrorsUnfolded(raw, fs, 7);
    assert fs[7..] == [];
    assert ErrorsUpTo(raw, fs, 1) == CheckField(raw, Age);
    assert ErrorsUpTo(raw, fs, 2) == ErrorsUpTo(raw, fs, 1) + CheckField(raw, Gender);
    assert ErrorsUpTo(raw, fs, 3) == ErrorsUpTo(raw, fs, 2) + CheckField(raw, Height);
    assert ErrorsUpTo(raw, fs, 4) == ErrorsUpTo(raw, fs, 3) + CheckField(raw, Weight);
    assert ErrorsUpTo(raw, fs, 5) == ErrorsUpTo(raw, fs, 4) + CheckField(raw, SmokingHistory);
    assert ErrorsUpTo(raw, fs, 6) == ErrorsUpTo(raw, fs, 5) + CheckField(raw, Hypertension);
    assert ErrorsUpTo(raw, fs, 7) == ErrorsUpTo(raw, fs, 6) + CheckField(raw, HeartDisease);
  }

  /**
   * Validation: a valid request passes unchanged (nothing is clamped);
   * any other is rejected with the errors of all its failing fields.
   */
  function Validate(raw: RawRequest): (r: Result<Request, seq<FieldError>>)
    ensures r.Ok? <==> Valid(raw)
    ensures r.Ok? ==> r.value == raw
    ensures r.Err? ==> r.error != [] && r.error == ValidationErrors(raw)
  {
    var errs := ValidationErrors(raw);
    if errs == [] then Ok(raw) else Err(errs)
  }

  /** Only the failing fields, in the order given. */
  function FailingFields(raw: RawRequest, fs: seq<Field>): seq<Field>
  {
    if fs == [] then []
    else (if FieldOk(raw, fs[0]) then [] else [fs[0]]) + FailingFields(raw, fs[1..])
  }

  lemma {:induction false} ErrorFieldsAppend(a: seq<FieldError>, b: seq<FieldError>)
    ensures ErrorFields(a + b) == ErrorFields(a) + ErrorFields(b)
  {
    if a == [] {
      assert a + b == b;
    } else {
      assert (a + b)[1..] == a[1..] + b;
      ErrorFieldsAppend(a[1..], b);
    }
  }

  /** The errors name exactly the failing fields, once each, in field order. */
  lemma {:induction false} CollectErrorsNamesFailingFields(raw: RawRequest, fs: seq<Field>)
    ensures ErrorFields(CollectErrors(raw, fs)) == FailingFields(raw, fs)
  {
    if fs != [] {
      var head := CheckField(raw, fs[0]);
      CollectErrorsNamesFailingFields(raw, fs[1..]);
      ErrorFieldsAppend(head, CollectErrors(raw, fs[1..]));
      if head != [] {
        assert head == [head[0]];
        assert ErrorFields(head) == [fs[0]];
      }
    }
  }

  /** Each reported error is true of the value the field holds. */
  lemma {:induction false} CollectErrorsAreTrue(raw: RawRequest, fs: seq<Field>, e: FieldError)
    requires e in CollectErrors(raw, fs)
    ensures e.field in fs
    ensures e.violation in ConstraintsOf(e.field) && Breaks(ValueOf(raw, e.field), e.violation)
  {
    if e in CheckField(raw, fs[0]) {
      assert CheckField(raw, fs[0]) == [e];
    } else {
      CollectErrorsAreTrue(raw, fs[1..], e);
    }
  }

  lemma {:induction false} FailingFieldsMembership(raw: RawRequest, fs: seq<Field>, f: Field)
    ensures f in FailingFields(raw, fs) <==> f in fs && !FieldOk(raw, f)
  {
    if fs != [] {
      FailingFieldsMembership(raw, fs[1..], f);
    }
  }

  lemma ErrorFieldsEmpty(errs: seq<FieldError>)
    ensures ErrorFields(errs) == [] <==> errs == []
  {
  }

  /** No field fails exactly when the request is valid. */
  lemma FailingFieldsEmptyIffValid(raw: RawRequest)
    ensures FailingFields(raw, Fields) == [] <==> Valid(raw)
  {
    var failing := FailingFields(raw, Fields);
    forall f | true
      ensures f in failing <==> !FieldOk(raw, f)
    {
      FailingFieldsMembership(raw, Fields, f);
    }
    if failing != [] {
      assert failing[0] in failing;
    }
  }

  /**
   * The rejection names a given field exactly when that field breaks its
   * rule, and then with one of that field's declared constraints.
   */
  lemma ValidationErrorsExact(raw: RawRequest, f: Field)
    ensures f in ErrorFields(ValidationErrors(raw)) <==> !FieldOk(raw, f)
    ensures forall e :: e in ValidationErrors(raw) && e.field == f ==>
              e.violation in ConstraintsOf(f) && Breaks(ValueOf(raw, f), e.violation)
  {
    FailingFieldsMembership(raw, Fields, f);
  }

  // ---------------------------------------------------------------------------
  // Computed fields

  /** Bounds on weight / height^2 that follow from the validated ranges. */
  lemma QuotientBounds(height: real, weight: real)
    requires 0.5 < height < 2.5 && 20.0 < weight < 300.0
    ensures 0.25 < height * height < 6.25
    ensures 3.2 < weight / (height * height) < 1200.0
  {
    var h2 := height * height;
    assert 0.25 < h2 by {
      assert height * height > 0.5 * height;
    }
    assert h2 < 6.25 by {
      assert height * height < 2.5 * height;
    }
    var q := weight / h2;
    assert q * h2 == weight;
  }

  /** weight / height^2, whose divisor the validated height bound keeps above 0.25. */
  function Quotient(d: Request): (q: real)
    ensures 3.2 < q < 1200.0
  {
    QuotientBounds(d.height, d.weight);
    d.weight / (d.height * d.height)
  }

  /**
   * Body Mass Index: weight / height^2 rounded to 2 decimals. The result is
   * at least 3.2 and at most 1200, has 2 decimals and is within 0.005 of
   * the exact quotient.
   */
  function Bmi(d: Request): (bmi: real)
    ensures bmi == RoundTo(Quotient(d), 2)
    ensures 3.2 <= bmi <= 1200.0
    ensures OnGrid(bmi, 2)
    ensures Shift(Abs(bmi - Quotient(d)), 2) <= 0.5
  {
    var q := Quotient(d);
    RoundToWithin(q, 2, 320, 120000);
    RoundToError(q, 2);
    RoundTo(q, 2)
  }

  /** No value with 2 decimals is closer to weight / height^2 than the BMI. */
  lemma BmiIsNearest(d: Request, k: int)
    ensures Abs(Bmi(d) - Quotient(d)) <= Abs(Unshift(k as real, 2) - Quotient(d))
  {
    RoundToIsNearest(Quotient(d), 2, k);
  }

  /** "Yes" is 1, anything else 0. */
  function YesNoBin(answer: string): (b: int)
    ensures b == 0 || b == 1
    ensures b == 1 <==> answer == "Yes"
  {
    if answer == "Yes" then 1 else 0
  }

  /** The answer an encoded 0/1 stands for. */
  function AnswerOf(bin: int): string
  {
    if bin == 1 then "Yes" else "No"
  }

  function HypertensionBin(d: Request): (b: int)
    ensures b == 0 || b == 1
    ensures b == 1 <==> d.hypertension == "Yes"
    ensures b == 0 <==> d.hypertension == "No"
  {
    YesNoBin(d.hypertension)
  }

  function HeartDiseaseBin(d: Request): (b: int)
    ensures b == 0 || b == 1
    ensures b == 1 <==> d.heart_disease == "Yes"
    ensures b == 0 <==> d.heart_disease == "No"
  {
    YesNoBin(d.heart_disease)
  }

  /** On a validated request the encoding loses nothing: decoding gives the answer back. */
  lemma AnswersRoundTrip(d: Request)
    ensures AnswerOf(HypertensionBin(d)) == d.hypertension
    ensures AnswerOf(HeartDiseaseBin(d)) == d.heart_disease
  {
  }
}
