# Heart readmission predictor: the feature encoder

This project models the core of a small prediction service for the
readmission risk of heart patients. Its one endpoint, `/predict`, does the
following:

- It takes a JSON request with ten lab values, the ten lab flags, the
  admission type, the discharge location, the insurance, and the admission
  and discharge times.
- It encodes these into a fixed-order vector of 31 numbers and hands that
  vector to a trained classifier.
- It stores the request, the features and the outcome as a record in a
  database collection.
- It answers with the label and the probability.

The model is in six modules:

- `Wrappers`: the `Option` and `Result` types, and the kinds of exception
  the handler's steps raise.
- `Text`: the string methods the encoders call (`upper`, `lower`, `strip`), on
  ASCII.
- `Calendar`: the part of Python's `datetime` the temporal encoders use:
  - `strptime` with the format `%Y-%m-%d %H:%M:%S`;
  - the proleptic Gregorian day ordinal;
  - `weekday()`;
  - the day count of a difference of two datetimes, which is a floor.
- `Encoders`: the six encoders (admission type, lab flag, discharge location,
  insurance risk, length of stay, admission weekday).
- `Features`: how the handler reads the request and builds its result
  dictionary, the fixed `feature_order`, and the 31-entry vector
  `[result.get(f, 0) for f in feature_order]`.
- `Service`: the handler itself, as a method over a `PredictionLog` class that
  holds the stored records.

Request values are `Json` (number, string or null). A key that is absent and
a key whose value is JSON null both read as `Null`, as `data.get` returns
`None` for both.

Every exception the handler can raise is a `Failure(Error)`. The steps run in
the handler's order, and the first step that raises decides the error:

1. a lab that is not a number (`float(None)`);
2. a flag that is not a string (`lower()` on it);
3. the admission type (`upper()`);
4. the discharge location (`strip()`);
5. the admission timestamp;
6. the discharge timestamp.

The insurance field never fails: any value that is not one of the five
insurance names scores 0.

## The two misspelt columns

The handler stores two lab values under one spelling and reads them under
another:

- It stores the urea nitrogen and C-reactive protein values under the keys
  `"urea_nitrogen"` and `"c_reactive_protein"`.
- `feature_order` asks for `"urea nitrogen"` and `"c-reactive protein"`.

So positions 4 and 12 of the vector are always the default 0. The model keeps
this behaviour as the code has it:

- `Features.LabColumns` states that the two positions are 0.
- `Features.MisspeltLabsIgnored` and `Features.MisspeltLabsReplaced` state
  that the values sent for these two labs never change the vector.

The request still has to carry the two values as numbers, or the build fails.

## Model

| member | source | states |
|---|---|---|
| Text.Upper | app.py:25-26 | `str.upper()` keeps the length and maps each lower-case ASCII letter to its capital, and leaves every other character as it is |
| Text.Lower | app.py:35 | `str.lower()` keeps the length and maps each capital ASCII letter to its lower-case form, and leaves every other character as it is |
| Text.Strip | app.py:38 | `str.strip()`: `StripIsTrimmedSlice` states that it returns the slice between a whitespace prefix and a whitespace suffix, and `StripPadding` that it removes exactly the whitespace around a trimmed core |
| Text.StripLeft | app.py:38 | the result is a suffix of the input, everything removed is whitespace, and the result does not start with whitespace |
| Text.StripRight | app.py:38 | the result is a prefix of the input, everything removed is whitespace, and the result does not end with whitespace |
| Text.StripIsTrimmedSlice | app.py:38 | `strip()` returns the slice between a whitespace prefix and a whitespace suffix, and the slice neither starts nor ends with whitespace |
| Text.StripOfTrimmed | app.py:38 | text that neither starts nor ends with whitespace is its own `strip()` |
| Text.StripPadding | app.py:38 | whitespace around a trimmed core is exactly what `strip()` removes |
| Text.StripIdempotent | app.py:38 | stripping twice is stripping once |
| Text.StripUpperCommute | app.py:38 | `strip()` then `upper()` equals `upper()` then `strip()` |
| Text.UpperIdempotent | app.py:38 | upper-casing twice is upper-casing once |
| Text.UpperOfUppercase | app.py:38 | text with no lower-case letter is its own `upper()` |
| Text.CaseFoldsAgree | app.py:25-35 | `upper(lower(s)) == upper(s)` and `lower(upper(s)) == lower(s)` |
| Text.CaseFoldCharacterises | app.py:25-35 | two strings have the same `upper()`, and the same `lower()`, exactly when they differ only in the case of letters |
| Calendar.DaysInMonth | app.py:59-60 | every month has 28 to 31 days |
| Calendar.DaysBeforeYearCounts | app.py:61 | the closed form of the days before a year equals the sum of the lengths of all earlier years under the Gregorian leap rule |
| Calendar.DaysBeforeMonthCounts | app.py:61 | the cumulative month table equals the sum of the lengths of the earlier months of the year |
| Calendar.NextDayOrdinal | app.py:61 | consecutive calendar days have consecutive ordinals, across month and year ends |
| Calendar.NextDayWeekday | app.py:65 | the weekday advances by one each day and wraps from Sunday (6) to Monday (0) |
| Calendar.FirstDay | app.py:65 | 0001-01-01 has ordinal 1 and is a Monday |
| Calendar.Ordinal | app.py:61 | `date.toordinal()`: `DaysBeforeYearCounts` and `DaysBeforeMonthCounts` tie it to counting the days of the earlier years and months, `FirstDay` puts 0001-01-01 at 1 and `NextDayOrdinal` adds one per calendar day |
| Calendar.SecondsBetween | app.py:61 | the seconds of `discharge - admit`: its day part is `DaysBetween`, and `SameTimeOfDay` shows it is a whole number of days apart when the times of day agree |
| Calendar.Weekday | app.py:65 | `weekday()` is in 0..6 |
| Calendar.DaysBetween | app.py:61 | the `.days` of a difference is the floor of its seconds over 86400 |
| Calendar.Digits | app.py:59-60 | the zero-padded decimal form has exactly the width asked for, and all of its characters are digits |
| Calendar.DigitsRoundTrip | app.py:59-60 | reading back the zero-padded form of a number below 10^w gives the number |
| Calendar.DigitsValueRoundTrip | app.py:59-60 | a run of w digits spells a number below 10^w whose w-digit form is the run itself |
| Calendar.Format | app.py:59-60 | the canonical text of a datetime has the shape `dddd-dd-dd dd:dd:dd` |
| Calendar.FormatSlices | app.py:59-60 | each field of the canonical text is the zero-padded form of the datetime's field |
| Calendar.FormatFields | app.py:59-60 | the fields read from the canonical text are the datetime's own |
| Calendar.Parse | app.py:59-60 | `datetime.strptime` with the fixed format: a result is a valid datetime, and a failure is either a format mismatch or an out-of-range field; `ParseFormat` and `ParseOnlyCanonical` state that it accepts exactly the canonical texts of valid datetimes and reads each back unchanged |
| Calendar.ParseFormat | app.py:59-60 | `strptime` reads the canonical text of every valid datetime back unchanged |
| Calendar.ParseOnlyCanonical | app.py:59-60 | `strptime` accepts nothing but the canonical text of a valid datetime |
| Calendar.FieldsRespelt | app.py:59-60 | writing a well-shaped text's fields back with zero padding gives its digit runs |
| Calendar.SameRunsSameText | app.py:59-60 | two well-shaped texts with the same six digit runs are the same text |
| Calendar.FieldsByDigit | app.py:59-60 | each field of a well-shaped text is the decimal value of its digits |
| Encoders.EncodeAdmissionType | app.py:23-27 | the result has the two admission keys, each indicator is 0 or 1, and at most one of them is set |
| Encoders.AdmissionTypeIndicators | app.py:23-27 | each indicator is 1 exactly when the upper-cased type is its literal, and both are 0 for any other type |
| Encoders.AdmissionTypeIgnoresCase | app.py:25-26 | two types that differ only in letter case encode the same way |
| Encoders.AdmissionTypeExamples | app.py:23-27 | "emergency" and "Urgent" set their columns; "Routine" and " EMERGENCY" (a leading space is not stripped) set neither |
| Encoders.EncodeFlag | app.py:29-35 | the flag code is 0, 1 or 2 |
| Encoders.FlagMeaning | app.py:29-35 | the code is 1 exactly when the lower-cased flag is "abnormal", 2 exactly when it is "delta", and 0 otherwise |
| Encoders.FlagIgnoresCase | app.py:35 | two flags that differ only in letter case have the same code |
| Encoders.FlagExamples | app.py:29-35 | "Abnormal" is 1, "DELTA" is 2, and "nan", "" and "high" are 0 |
| Encoders.EncodeDischargeLocation | app.py:37-46 | the result has exactly the six discharge columns, each 0 or 1 |
| Encoders.SixColumnsLookup | app.py:39-46 | with distinct column keys, column i indicates whether the value is the i-th location |
| Encoders.SixColumnsOneHot | app.py:39-46 | with distinct keys and locations, the columns sum to 1 when the value is one of the locations and to 0 otherwise |
| Encoders.DischargeColumns | app.py:37-46 | column i of the encoding indicates whether the stripped, upper-cased location is the i-th literal |
| Encoders.DischargeIndicators | app.py:37-46 | column i is 1 exactly when the normalised location is the i-th literal; exactly one column is set when it is one of the six ("OTHER FACILITY" included), none otherwise |
| Encoders.DischargeLiteralsDistinct | app.py:39-46 | the six literals, and the six column keys, are pairwise distinct |
| Encoders.NormalizeLocation | app.py:38 | `value.strip().upper()`: `NormalizeIdempotent` states that it is idempotent and `DischargeSeesOnlyNormalized` that the encoding depends on nothing else |
| Encoders.NormalizeIdempotent | app.py:38 | normalising a location twice is normalising it once |
| Encoders.DischargeSeesOnlyNormalized | app.py:37-38 | encoding a location equals encoding its stripped, upper-cased form |
| Encoders.DischargeColumnSet | app.py:37-46 | a location that normalises to the i-th literal sets column i |
| Encoders.DischargeNoneSet | app.py:37-46 | a location that normalises to none of the literals sets no column |
| Encoders.DischargeExamplePadded | app.py:37-46 | "  home\t" sets the HOME column |
| Encoders.DischargeExampleOtherFacility | app.py:37-46 | "Other Facility" sets the OTHER FACILITY column |
| Encoders.DischargeExampleUnknown | app.py:37-46 | "HOSPICE" sets no column |
| Encoders.GetInsuranceRisk | app.py:48-56 | the risk is in 0..4; it is non-zero exactly when the value is a string naming one of the five insurances (case-sensitive), and then it is that insurance's score |
| Encoders.InsuranceExamples | app.py:48-56 | "Medicare" is 3, "medicare" is 0, "Self Pay" is 2, and None is 0 |
| Encoders.CalculateLengthOfStay | app.py:58-61 | `calculate_length_of_stay`: `LengthOfStayErrors` gives its errors in the order the times are parsed, and `LengthOfStayFloor` its value, the floor of the stay in seconds over 86400 |
| Encoders.GetAdmitWeekday | app.py:63-65 | `get_admit_weekday`: `AdmitWeekdaySpec` states that it fails exactly when the admission time fails to parse and is otherwise in 0..6 |
| Encoders.ParseTimestamp | app.py:59-60 | a parsed time is a valid datetime, and None is a TypeError |
| Encoders.LengthOfStayErrors | app.py:58-61 | the length of stay fails with the admission time's error, then with the discharge time's error, and succeeds exactly when both parse |
| Encoders.LengthOfStayFloor | app.py:58-61 | when both times parse, the length of stay is the largest whole number of days not above the stay in seconds |
| Encoders.ShortStays | app.py:61 | a stay under 24 hours counts 0 days, and a discharge up to a day before the admission counts -1 |
| Encoders.SwappedStay | app.py:61 | swapping the two times negates the count for a whole number of days, and otherwise gives its negation minus one |
| Encoders.SameTimeOfDay | app.py:61 | two times with the same time of day are as many days apart as their dates |
| Encoders.AdmitWeekdaySpec | app.py:63-65 | the weekday fails exactly when the admission time fails to parse, and otherwise it is in 0..6 |
| Encoders.LengthOfStayExample | app.py:58-61 | 2024-01-01 08:00:00 to 2024-01-03 10:00:00 is 2 days |
| Encoders.OneHourBackwardsExample | app.py:58-61 | a discharge one hour before the admission is -1 days |
| Encoders.AdmitWeekdayExample | app.py:63-65 | 2024-01-01 08:00:00 is a Monday (0) |
| Encoders.MonthThirteenExample | app.py:64 | month 13 fails the format |
| Encoders.NoLeapDayExample | app.py:64 | 2023-02-29 matches the format but is out of range |
| Encoders.WrongSeparatorExample | app.py:64 | a "T" between date and time fails the format, and None is a TypeError |
| Features.Get | app.py:76-108 | an absent key reads as None |
| Features.StringForMethod | app.py:25-38 | a string method succeeds exactly on a string, and any other value raises an AttributeError naming the method |
| Features.LabValues | app.py:76-85 | reading the labs succeeds exactly when every lab is a number, and otherwise raises a TypeError |
| Features.LabValuesContents | app.py:76-136 | the lab values are stored as floats under the labs' own keys, and nothing else is |
| Features.FlagValues | app.py:87-98 | encoding the flags succeeds exactly when every flag is a string, and otherwise raises an AttributeError on `lower` |
| Features.FlagValuesContents | app.py:87-98 | the flag codes are stored as ints under the flags' result keys and nothing else is; each key holds the code of its own flag |
| Features.IntColumns | app.py:138-139 | an encoder's indicators enter the result under the same keys with the same values |
| Features.StepResults | app.py:76-108 | a successful build holds exactly what each encoder returned for its request field |
| Features.FeatureParts | app.py:124-149 | a built feature map is the join of the lab values, the flags, both indicator sets and the three summary values, each with its key set |
| Features.FeatureSteps | app.py:76-108 | the handler's steps in order: `StepsFailAt` states that they fail exactly at the first unusable field with its error, and `StepResults` what each step produced |
| Features.BuildFeatures | app.py:76-149 | the feature entries of the result dict: `BuildFeaturesFailsAt` gives when and how it fails, `FeatureParts` and `JoinLookup` what it holds, and `LabColumns`, `FlagColumns`, `CategoricalColumns` and `SummaryColumns` the vector it gives |
| Features.BuildIsJoin | app.py:124-149 | a successful build is the join of the steps' results |
| Features.JoinLookup | app.py:124-149 | the joined map has exactly the keys of its five pieces, and each key holds its own piece's value, since no two pieces share a key |
| Features.KeysDisjoint | app.py:87-149 | the lab keys, flag keys, indicator keys and summary keys are pairwise disjoint |
| Features.JoinIsNumeric | app.py:124-149 | every feature entry is a number |
| Features.BuiltIsNumeric | app.py:124-152 | every entry of a built feature map is a number |
| Features.Assemble | app.py:152 | the vector has 31 entries, and entry i is the map's value for `feature_order[i]`, or 0 when the key is absent |
| Features.AsFloats | app.py:152 | the array keeps each number, an int turned into a float |
| Features.AssembleIgnoresOtherKeys | app.py:124-152 | entries under keys that `feature_order` does not name leave the vector unchanged |
| Features.AssembledIsNumeric | app.py:152 | every entry of the vector of a built request is a number |
| Features.OrderMatchesKeys | app.py:111-122 | lab i's value and flag are at 2i and 2i+1 (except labs 2 and 6), the admission indicators at 20-21, the discharge indicators at 22-27, and the summary values at 28-30 |
| Features.MisspeltLabsMatchNothing | app.py:113-115 | "urea nitrogen" and "c-reactive protein" are keys of no piece of the feature map |
| Features.UreaKeyUnordered | app.py:129 | the key the urea nitrogen value is stored under is not in the order |
| Features.ReactiveProteinKeyUnordered | app.py:133 | the key the C-reactive protein value is stored under is not in the order |
| Features.LabColumns | app.py:76-152 | every even position holds its lab's value, except positions 4 and 12, which are 0 whatever the labs are |
| Features.FlagColumns | app.py:87-152 | position 2i+1 holds the code of lab i's flag |
| Features.CategoricalColumns | app.py:100-152 | positions 20-21 hold the admission indicators and 22-27 the six discharge indicators |
| Features.SummaryColumns | app.py:102-152 | positions 28-30 hold the insurance risk, the length of stay and the admission weekday |
| Features.BuildFeaturesFailsAt | app.py:76-108 | the build fails exactly when some field is unusable, and fails with the error of the first such field in the handler's order |
| Features.StepsFailAt | app.py:76-108 | the same, for any lab table |
| Features.CategoricalErrors | app.py:100-101 | once the labs and flags are usable, a non-string admission type fails on `upper`, and then a non-string discharge location fails on `strip` |
| Features.TimestampStepsLast | app.py:104-108 | once the other fields are usable, the build fails with the admission time's error, then with the discharge time's, and otherwise succeeds |
| Features.TimestampErrorFirst | app.py:104-108 | once the other fields are usable, the first error is the admission time's, then the discharge time's |
| Features.AgreeingBuildSucceeds | app.py:76-108 | two requests that differ only in the two misspelt labs' numbers either both build or both fail |
| Features.FirstErrorAgrees | app.py:76-108 | such requests have the same first error |
| Features.FlagValuesAgree | app.py:87-98 | requests with the same flags encode them the same way |
| Features.LabValuesAgree | app.py:76-85 | requests that agree on the labs outside a set of keys give lab values that agree outside that set |
| Features.JoinAgreesAt | app.py:124-149 | feature maps whose pieces differ only in the misspelt labs agree on every other key |
| Features.AssembledAgreeAt | app.py:152 | such maps give the same entry at every position of the vector |
| Features.JoinsAgree | app.py:152 | such maps give the same vector |
| Features.MisspeltLabsIgnored | app.py:111-152 | two requests that differ only in their urea nitrogen and C-reactive protein numbers either both fail or give the same vector |
| Features.AgreeingParts | app.py:124-149 | such requests build pieces that differ only in the misspelt labs |
| Features.ReplacedAgrees | app.py:78-82 | replacing the two misspelt labs' numbers leaves every other field the handler reads as it was |
| Features.MisspeltLabsReplaced | app.py:111-152 | replacing the two numbers in a request that builds gives a request that builds to the same vector |
| Service.PredictionLog.constructor | app.py:21 | a log with no records; the source's handle may name a collection that already holds records, which `Service.Predict` allows for by stating every change relative to the records it finds |
| Service.PredictionLog.InsertOne | app.py:163 | the record is appended and the earlier records stay as they were |
| Service.Status | app.py:72-172 | the status is 200 for a prediction, 400 for a request without data, and 500 for an error |
| Service.Copied | app.py:124-147 | a copied request value keeps its kind: a number, a string or None |
| Service.RequestFields | app.py:124-149 | the copied fields are the seven request fields and the timestamp |
| Service.Outcome | app.py:157-160 | the outcome adds exactly the prediction result and the probability |
| Service.Predict | app.py:68-172 | an empty request answers 400 and stores nothing; a failed build answers 500 with the build's error and stores nothing; otherwise the classifier is given the vector of the built features; if it raises, the answer is 500 with nothing stored; otherwise either the record is appended and the answer holds the label, the probability and "Prediction successful", or the store raises and the answer is 500 with nothing stored |
| Service.RequestFieldsOutsideOrder | app.py:111-160 | no copied field and no outcome entry is a column of the vector |
| Service.StoredRecord | app.py:124-163 | the record `insert_one` receives: `StoredVectorIsInput` states that its vector is the classifier's input, `StoredRecordKeepsFeatures` that it keeps every feature, `StoredRecordFields` that it holds the copied request fields and the time, and `StoredOutcome` the outcome |
| Service.StoredVectorIsInput | app.py:152-163 | the stored record's vector is the vector the classifier was given |
| Service.StoredRecordKeepsFeatures | app.py:124-160 | the stored record holds every feature unchanged, together with the copied fields and the outcome |
| Service.StoredRecordFields | app.py:124-149 | the stored record holds each copied request field as it came, and the time the result was built |
| Service.StoredOutcome | app.py:157-160 | the stored prediction result is "Yes" exactly when the label is 1 and "No" otherwise, and the probability is stored as it came |
| Service.BuiltKeysApart | app.py:124-160 | no feature shares a key with a copied field or an outcome entry, so the result dict loses no feature |
| Service.FeatureKeysInOrder | app.py:111-149 | every feature key is a column of the vector, except the two misspelt lab keys |

## Left out

- Flask routing, CORS, environment loading and the `/health` endpoint
  (app.py:1-13, 174-180). They are HTTP plumbing.
- The classifier: loading it with joblib and its internals. `model.predict`
  and `model.predict_proba` are function parameters of `Service.Predict`.
  Whether they return or raise is the `classifierAccepts` parameter. A
  failure of either call gives the same `ClassifierFailed` error, with
  nothing stored.
- MongoDB. The client setup is not modelled. `insert_one` either appends to
  `PredictionLog.records` or raises, as the `storeAccepts` parameter says. The
  `_id` that the driver adds to the record is not modelled.
- `datetime.now()` is the `now` parameter, a string. The record stores it as
  text, not as a datetime.
- `float()` of anything but a JSON number. The real `float` also accepts
  numeric strings and booleans, but every non-number lab fails here. A lab
  value is a `real` that is passed through; no float arithmetic is modelled.
- JSON booleans, arrays and objects inside the request, and a body that is
  not a JSON object. An unhashable insurance value would raise in the real
  code but cannot occur here. A body that fails to parse as JSON is not
  modelled.
- A request answers 400 only when it is the empty object, the one JSON
  object for which `not data` holds.
- Exception messages. Only the kind of each error is kept. The two
  `strptime` errors carry the whole input text, by the model's choice. The
  real messages differ: a range error does not name the text ("day is out of
  range for month"), and "unconverted data remains" names only the leftover
  characters.
- Unicode. `upper`, `lower` and `strip` act on ASCII letters and ASCII
  whitespace (including the four separator controls `str.isspace` counts).
  Every other character is kept and is not whitespace.
- `strptime`'s leniency. Here only the strict 19-character form with ASCII
  digits is accepted. The real parser also takes:
  - one-digit fields;
  - a space-padded day: "2024-01- 1 08:00:00" parses in Python and is a
    format mismatch here;
  - runs of whitespace for the space;
  - non-ASCII decimal digits, which `\d` matches.
- The lab flags have no default. The handler passes `data.get(...)` of each
  flag to `encode_flag` (app.py:88-97), so a missing flag arrives as `None`,
  and `lower()` raises on it (app.py:35).
- The lab table is a parameter of `Features.FeatureSteps` and
  `Features.StepsFailAt`. The handler's ten labs are `Features.Labs`.
- The numpy reshape to one row and the conversion of the label with `int()`.
  The label is an `int` throughout.
