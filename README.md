# Diabetes screening service — a Dafny model

This project models the screening endpoint of a diabetes risk screening tool.
A request carries seven fields: age, gender, height, weight, smoking history,
hypertension and heart disease. The service validates the request and computes
the body mass index (BMI) and 0/1 encodings of the two Yes/No answers. It then
builds the six-column feature record the trained classifier expects and asks
the classifier for a probability. The result is labelled "High Risk" or
"Low Risk" against a fixed threshold, and the probability and threshold are
reported rounded to 3 decimals.

Modules:

- `Wrappers` (`wrappers.dfy`): the `Result` type used for rejection.
- `Rounding` (`rounding.dfy`): Python's `round(x, n)`, as round-half-to-even on
  exact reals. Scaling by 10^n is written as repeated multiplication by ten
  (`Shift`/`Unshift`) so that every proof step stays linear.
- `ScreeningInput` (`screening_input.dfy`): the request, its validation, and the
  computed fields `bmi`, `hypertension_bin` and `heart_disease_bin`.
- `ScreeningService` (`screening_service.dfy`): the feature record, the label,
  the rounded response, and the endpoint that chains validation and scoring.
  The classifier and the threshold are the two parts of a `Service` value. The
  classifier is any function from a feature row to a real, so nothing is
  assumed about it.
- `Scenarios` (`scenarios.dfy`): concrete requests. They cover the documented
  example (age 45, height 1.72, weight 75), the boundary values, and case
  sensitivity.

A validated request is the subset type `Request`. The BMI division therefore
needs no extra precondition: the height bound keeps the divisor above 0.25.

Rounding is round-half-to-even on exact values, which is the rule Python's
`round` applies. Ties are decided on the exact real, not on its binary
floating-point neighbour.

The label compares the unrounded probability with the unrounded threshold, as
`main.py:67` does. One might expect the label to agree with the reported,
rounded figures: "High Risk" exactly when the reported probability is at least
the reported threshold. The code does not promise that, and the model follows
the code. Only one direction holds (`HighRiskReportsProbabilityAtLeastThreshold`).
`RoundedFiguresMayTie` shows a probability of 0.3006 against a threshold of
0.3009: the label is "Low Risk", yet both figures are reported as 0.301.

## Model

| member | source | states |
|---|---|---|
| ScreeningInput.FieldOk | main.py:20-26 | each field's rule (age in (0, 120), height in (0.5, 2.5), weight in (20, 300), gender, smoking history and both answers among their case-sensitive literals) holds exactly when the field's value breaks none of the field's declared constraints |
| ScreeningInput.Valid | main.py:19-26 | a request is valid exactly when every one of its fields keeps its rule |
| ScreeningInput.CheckField | main.py:20-26 | a field yields no error exactly when it keeps its rule; otherwise exactly one error, naming that field and one of its declared constraints that its value breaks |
| ScreeningInput.ValidationErrors | main.py:19-26 | the error list is empty exactly when the request is valid; it names exactly the failing fields, once each, in declaration order; each error carries a declared constraint of its field that the field's value breaks |
| ScreeningInput.Validate | main.py:19-26 | a request is accepted exactly when every field keeps its rule; an accepted request is passed on unchanged (nothing clamped); a rejected one carries a non-empty error list |
| ScreeningInput.ValidationErrorsExact | main.py:19-26 | a given field is named by the rejection exactly when it breaks its rule, and then with one of that field's own declared constraints, broken by its value |
| ScreeningInput.CollectErrorsNamesFailingFields | main.py:19-26 | collecting the errors field by field names exactly the failing fields, in the order the fields are checked |
| ScreeningInput.CollectErrorsAreTrue | main.py:20-26 | each collected error belongs to a checked field and carries one of that field's declared constraints, broken by the field's value |
| ScreeningInput.FailingFieldsEmptyIffValid | main.py:19-26 | no field fails exactly when the request is valid |
| ScreeningInput.QuotientBounds | main.py:22-23 | within the validated bounds, height squared lies in (0.25, 6.25), so the divisor is positive, and weight / height squared lies in (3.2, 1200) |
| ScreeningInput.Quotient | main.py:37 | weight / height squared is well defined on every validated request and lies strictly between 3.2 and 1200 |
| ScreeningInput.Bmi | main.py:33-37 | the BMI is weight / height squared rounded to 2 decimals with ties to even; it lies within 0.005 of the quotient and in [3.2, 1200], so it is strictly positive |
| ScreeningInput.BmiIsNearest | main.py:37 | no 2-decimal value is closer to weight / height squared than the BMI |
| ScreeningInput.YesNoBin | main.py:43-49 | the encoding is 0 or 1, and 1 exactly when the answer is "Yes" |
| ScreeningInput.HypertensionBin | main.py:41-44 | the encoding is 0 or 1: 1 exactly when the answer is "Yes", 0 exactly when it is "No" |
| ScreeningInput.HeartDiseaseBin | main.py:46-49 | the encoding is 0 or 1: 1 exactly when the answer is "Yes", 0 exactly when it is "No" |
| ScreeningInput.AnswersRoundTrip | main.py:43-49 | on a validated request, decoding the 0/1 encoding gives back the original "Yes"/"No" answer |
| ScreeningService.Features | main.py:54-61 | the record has six columns, named age, gender, smoking_history, bmi, hypertension, heart_disease in that order; age, gender and smoking history are copied; the BMI column is the rounded BMI; the last two hold the 0/1 encodings of the answers |
| ScreeningService.FeaturesIdentify | main.py:54-61 | two requests give the same record exactly when they agree on age, gender, smoking history, rounded BMI and both answers |
| ScreeningService.RiskLabel | main.py:67 | "High Risk" exactly when prob >= threshold (a tie counts as High Risk), "Low Risk" exactly when prob < threshold |
| ScreeningService.Screen | main.py:52-73 | the classifier is asked about this request's feature record; the label reflects that probability against the threshold; the reported probability and threshold are those values rounded to 3 decimals with ties to even, each within 0.0005 of the value it reports |
| ScreeningService.ScreenRequest | main.py:51-73 | a request is scored exactly when it is valid, and then scored unchanged; an invalid request yields its field errors and no score |
| ScreeningService.ThresholdIndependentOfRequest | main.py:69-72 | any two valid requests are both scored and report the same threshold |
| ScreeningService.ResultDependsOnlyOnFeatures | main.py:54-73 | two requests with the same feature record get the same response, so the same request always gets the same response |
| ScreeningService.ReportedProbabilityInUnitInterval | main.py:64-70 | if the classifier's probability lies in [0, 1], so does the reported, rounded probability |
| ScreeningService.HighRiskReportsProbabilityAtLeastThreshold | main.py:67-72 | when the label is "High Risk", the reported probability is at least the reported threshold |
| ScreeningService.AtThresholdIsHighRisk | main.py:67 | a probability equal to the threshold is labelled "High Risk", and both are reported as the same figure |
| Rounding.RoundHalfEven | main.py:37 | the integer nearest to y: within 1/2 of it, and even when exactly 1/2 away |
| Rounding.RoundHalfEvenIsNearest | main.py:37 | no integer is closer to y than the rounded integer |
| Rounding.RoundHalfEvenCharacterized | main.py:37 | k is the rounded integer exactly when it lies strictly within 1/2 of y, or exactly 1/2 away and is even |
| Rounding.RoundTo | main.py:37-72 | the result has at most n decimals and lies strictly within half a unit of the n-th decimal of x, or exactly half a unit away with an even last digit |
| Rounding.RoundToCharacterized | main.py:37-72 | the n-decimal value with scaled last digit k is the result exactly when it is strictly within half a unit of x, or exactly half a unit away and k is even |
| Rounding.RoundToError | main.py:37 | rounding to n decimals moves the value by at most half a unit in the n-th decimal |
| Rounding.RoundToIsNearest | main.py:37 | rounding to n decimals returns the n-decimal value nearest to its argument |
| Rounding.RoundToGridPoint | main.py:70-72 | a value that already has n decimals is left unchanged |
| Rounding.RoundToIdempotent | main.py:70-72 | rounding twice to n decimals is the same as rounding once |
| Rounding.RoundToMonotone | main.py:70-72 | rounding to n decimals never reverses the order of two values |
| Rounding.RoundToWithin | main.py:70-72 | a value between two n-decimal bounds rounds to a value between them |
| Scenarios.ExampleRequestFeatures | main.py:20-23 | the documented example (age 45, height 1.72, weight 75) is accepted; its BMI is 25.35 and its feature record holds 0 for both answers |
| Scenarios.AgeBoundsAreStrict | main.py:20 | age 0 is refused for the lower bound and age 120 for the upper bound; both ends are exclusive |
| Scenarios.ZeroHeightIsNeverScored | main.py:22 | a height of 0 is refused by validation, so no BMI is computed and no score is produced |
| Scenarios.LiteralsAreCaseSensitive | main.py:21-25 | "male" and "maybe" are refused, and both failing fields are reported, in field order |
| Scenarios.RoundedFiguresMayTie | main.py:67-73 | with a probability of 0.3006 and a threshold of 0.3009 the label is "Low Risk", yet both are reported as 0.301 |
| Scenarios.MidpointThresholdRoundsToEven | main.py:72 | a threshold of 0.3125, exactly between 0.312 and 0.313, is reported as 0.312 |

## Left out

- Loading the classifier and the threshold from pickle files at import time (`main.py:9-14`) is file I/O. Both are the fields of a `Service` value instead. Failing closed when they cannot be loaded is therefore not modelled.
- The classifier itself (`model.predict_proba` on a pandas DataFrame, `main.py:64`) is an opaque trained model. It is modelled as an arbitrary function from the feature row to a real. The code does not check that its probability lies in [0, 1]; `ReportedProbabilityInUnitInterval` takes that as a precondition.
- Routing, JSON decoding and encoding, and HTTP status codes (`main.py:16`, `main.py:51`) are framework behaviour. A request arrives as a `RawRequest` whose fields are present and of the right type. Missing fields, wrong JSON types, and the coercion of numeric strings to floats are not modelled.
- Non-finite numbers are outside the model, because a Dafny `real` cannot be NaN or infinite. In Python, a NaN probability from the classifier fails `prob >= threshold`, so it would be labelled "Low Risk" and reported as `nan`. Whether NaN or infinite request fields pass the bounds checks is up to the validation library and is not modelled.
- Binary floating point: `/`, `** 2` and `round` are modelled on exact reals. Rounding artefacts of IEEE-754 doubles, such as `round(2.675, 2) == 2.67`, are not reproduced.
- The error messages and locations pydantic attaches to each validation error are not modelled. Each error carries its field and the violated constraint (strict lower bound, strict upper bound, or literal set).
- frontend.py is not part of this model. It is the user interface that collects the fields, shows a BMI preview, posts the request and displays the answer.
