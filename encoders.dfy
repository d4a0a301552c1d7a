/**
 * The feature encoders of the prediction handler: admission type, lab flag,
 * discharge location, insurance risk, length of stay and admission weekday.
 */
module Encoders {
  import opened Wrappers
  import opened Text
  import opened Calendar

  // ---------------------------------------------------------------------------
  // Admission type: two indicator columns

  const EmergencyKey := "admission_type_EMERGENCY"
  const UrgentKey := "admission_type_URGENT"

  /** encode_admission_type: an indicator per admission type the model knows. */
  function EncodeAdmissionType(admissionType: string): (r: map<string, int>)
    ensures r.Keys == {EmergencyKey, UrgentKey}
    ensures r[EmergencyKey] in {0, 1} && r[UrgentKey] in {0, 1}
    ensures r[EmergencyKey] + r[UrgentKey] <= 1
  {
    var t := Upper(admissionType);
    map[EmergencyKey := if t == "EMERGENCY" then 1 else 0,
        UrgentKey := if t == "URGENT" then 1 else 0]
  }

  /** An indicator is set exactly when the upper-cased type is its literal;
      any other type, including one with surrounding spaces, sets neither. */
  lemma AdmissionTypeIndicators(admissionType: string)
    ensures EncodeAdmissionType(admissionType)[EmergencyKey] == 1 <==> Upper(admissionType) == "EMERGENCY"
    ensures EncodeAdmissionType(admissionType)[UrgentKey] == 1 <==> Upper(admissionType) == "URGENT"
    ensures Upper(admissionType) !in {"EMERGENCY", "URGENT"} ==>
              EncodeAdmissionType(admissionType) == map[EmergencyKey := 0, UrgentKey := 0]
  {
  }

  /** The encoding ignores the case of letters and nothing else. */
  lemma AdmissionTypeIgnoresCase(s: string, t: string)
    requires SameIgnoringCase(s, t)
    ensures EncodeAdmissionType(s) == EncodeAdmissionType(t)
  {
    CaseFoldCharacterises(s, t);
  }

  lemma AdmissionTypeExamples()
    ensures EncodeAdmissionType("emergency") == map[EmergencyKey := 1, UrgentKey := 0]
    ensures EncodeAdmissionType("Urgent") == map[EmergencyKey := 0, UrgentKey := 1]
    ensures EncodeAdmissionType("Routine") == map[EmergencyKey := 0, UrgentKey := 0]
    ensures EncodeAdmissionType(" EMERGENCY") == map[EmergencyKey := 0, UrgentKey := 0]
  {
    assert Upper("emergency") == "EMERGENCY";
    assert Upper("Urgent") == "URGENT";
    assert Upper("Routine")[0] == 'R';
    assert Upper(" EMERGENCY")[0] == ' ';
  }

  // ---------------------------------------------------------------------------
  // Lab flag: ordinal 0/1/2

  const FlagCodes: map<string, int> := map["nan" := 0, "abnormal" := 1, "delta" := 2]

  /** encode_flag: the lower-cased flag looked up in FlagCodes, 0 when absent. */
  function EncodeFlag(flag: string): (r: int)
    ensures 0 <= r <= 2
  {
    var f := Lower(flag);
    if f in FlagCodes then FlagCodes[f] else 0
  }

  /** 1 means "abnormal" and 2 means "delta" in any mix of case; every other
      flag, "nan" included, is 0. */
  lemma FlagMeaning(flag: string)
    ensures EncodeFlag(flag) == 1 <==> Lower(flag) == "abnormal"
    ensures EncodeFlag(flag) == 2 <==> Lower(flag) == "delta"
    ensures EncodeFlag(flag) == 0 <==> Lower(flag) != "abnormal" && Lower(flag) != "delta"
  {
  }

  /** The flag code does not depend on the case of the flag's letters. */
  lemma FlagIgnoresCase(s: string, t: string)
    requires SameIgnoringCase(s, t)
    ensures EncodeFlag(s) == EncodeFlag(t)
  {
    CaseFoldCharacterises(s, t);
  }

  lemma FlagExamples()
    ensures EncodeFlag("Abnormal") == 1
    ensures EncodeFlag("DELTA") == 2
    ensures EncodeFlag("nan") == 0
    ensures EncodeFlag("") == 0
    ensures EncodeFlag("high") == 0
  {
    assert Lower("Abnormal") == "abnormal";
    assert Lower("DELTA") == "delta";
    assert Lower("nan") == "nan";
    assert Lower("high") == "high";
  }

  // ---------------------------------------------------------------------------
  // Discharge location: six indicator columns

  const DischargeLocations: seq<string> :=
    ["HOME", "HOME HEALTH CARE", "SNF", "SHORT TERM HOSPITAL", "REHAB/DISTINCT PART HOSP", "OTHER FACILITY"]

  /** The six column names, in the order the feature vector uses them. */
  const DischargeKeys: seq<string> :=
    ["discharge_location_HOME", "discharge_location_HOME HEALTH CARE", "discharge_location_SNF",
     "discharge_location_SHORT TERM HOSPITAL", "discharge_location_REHAB/DISTINCT PART HOSP",
     "discharge_location_OTHER FACILITY"]

  /** The text the discharge location is compared on: stripped, then upper-cased. */
  function NormalizeLocation(location: string): string {
    Upper(Strip(location))
  }

  function Indicator(b: bool): int {
    if b then 1 else 0
  }

  /** One indicator column per key: column keys[j] is 1 exactly when v is locations[j]. */
  function SixColumns(keys: seq<string>, locations: seq<string>, v: string): (r: map<string, int>)
    requires |keys| == 6 && |locations| == 6
    ensures r.Keys == {keys[0], keys[1], keys[2], keys[3], keys[4], keys[5]}
    ensures forall k :: k in r ==> r[k] == 0 || r[k] == 1
  {
    map[keys[0] := Indicator(v == locations[0]),
        keys[1] := Indicator(v == locations[1]),
        keys[2] := Indicator(v == locations[2]),
        keys[3] := Indicator(v == locations[3]),
        keys[4] := Indicator(v == locations[4]),
        keys[5] := Indicator(v == locations[5])]
  }

  lemma SixKeys(keys: seq<string>)
    requires |keys| == 6
    ensures (set k | k in keys) == {keys[0], keys[1], keys[2], keys[3], keys[4], keys[5]}
  {
    forall k | k in keys ensures k in {keys[0], keys[1], keys[2], keys[3], keys[4], keys[5]} {
      var i :| 0 <= i < 6 && keys[i] == k;
    }
  }

  /** With distinct keys, column keys[i] indicates locations[i]. */
  lemma SixColumnsLookup(keys: seq<string>, locations: seq<string>, v: string)
    requires |keys| == 6 && |locations| == 6
    requires forall i, j :: 0 <= i < j < 6 ==> keys[i] != keys[j]
    ensures forall i :: 0 <= i < 6 ==> SixColumns(keys, locations, v)[keys[i]] == Indicator(v == locations[i])
  {
  }

  /** With distinct locations the columns are one-hot: their sum is 1 when v
      is one of the locations and 0 otherwise. */
  lemma SixColumnsOneHot(keys: seq<string>, locations: seq<string>, v: string)
    requires |keys| == 6 && |locations| == 6
    requires forall i, j :: 0 <= i < j < 6 ==> keys[i] != keys[j]
    requires forall i, j :: 0 <= i < j < 6 ==> locations[i] != locations[j]
    ensures var r := SixColumns(keys, locations, v);
            r[keys[0]] + r[keys[1]] + r[keys[2]] + r[keys[3]] + r[keys[4]] + r[keys[5]]
            == if v in locations then 1 else 0
  {
    SixColumnsLookup(keys, locations, v);
  }

  /** encode_discharge_location. */
  function EncodeDischargeLocation(location: string): (r: map<string, int>)
    ensures r.Keys == set k | k in DischargeKeys
    ensures forall k :: k in r ==> r[k] in {0, 1}
  {
    var v := NormalizeLocation(location);
    SixKeys(DischargeKeys);
    SixColumns(DischargeKeys, DischargeLocations, v)
  }

  /** The number of discharge indicators that are set. */
  function IndicatorsSet(r: map<string, int>): int
    requires forall i :: 0 <= i < 6 ==> DischargeKeys[i] in r
  {
    r[DischargeKeys[0]] + r[DischargeKeys[1]] + r[DischargeKeys[2]]
    + r[DischargeKeys[3]] + r[DischargeKeys[4]] + r[DischargeKeys[5]]
  }

  /** The six literals, and so the six columns, are pairwise distinct: they
      differ in length. */
  lemma DischargeLiteralsDistinct()
    ensures forall i, j :: 0 <= i < j < 6 ==> DischargeLocations[i] != DischargeLocations[j]
    ensures forall i, j :: 0 <= i < j < 6 ==> DischargeKeys[i] != DischargeKeys[j]
  {
    assert |DischargeLocations[0]| == 4 && |DischargeLocations[1]| == 16 && |DischargeLocations[2]| == 3;
    assert |DischargeLocations[3]| == 19 && |DischargeLocations[4]| == 24 && |DischargeLocations[5]| == 14;
    assert |DischargeKeys[0]| == 23 && |DischargeKeys[1]| == 35 && |DischargeKeys[2]| == 22;
    assert |DischargeKeys[3]| == 38 && |DischargeKeys[4]| == 43 && |DischargeKeys[5]| == 33;
  }

  /** Column i of the encoding indicates the i-th literal. */
  lemma DischargeColumns(location: string)
    ensures forall i :: 0 <= i < 6 ==>
              EncodeDischargeLocation(location)[DischargeKeys[i]] == Indicator(NormalizeLocation(location) == DischargeLocations[i])
  {
    DischargeLiteralsDistinct();
    SixColumnsLookup(DischargeKeys, DischargeLocations, NormalizeLocation(location));
  }

  /** Column i is set exactly when the normalised location is the i-th literal;
      exactly one column is set when the location is one of the six, "OTHER
      FACILITY" included, and none otherwise. */
  lemma DischargeIndicators(location: string)
    ensures forall i :: 0 <= i < 6 ==>
              (EncodeDischargeLocation(location)[DischargeKeys[i]] == 1 <==> NormalizeLocation(location) == DischargeLocations[i])
    ensures IndicatorsSet(EncodeDischargeLocation(location)) == if NormalizeLocation(location) in DischargeLocations then 1 else 0
  {
    DischargeColumns(location);
    DischargeLiteralsDistinct();
    SixColumnsOneHot(DischargeKeys, DischargeLocations, NormalizeLocation(location));
  }

  /** Normalising twice is normalising once. */
  lemma NormalizeIdempotent(location: string)
    ensures NormalizeLocation(NormalizeLocation(location)) == NormalizeLocation(location)
  {
    StripUpperCommute(Strip(location));
    StripIdempotent(location);
    UpperIdempotent(Strip(location));
  }

  /** The encoding sees only the normalised location: surrounding whitespace
      and letter case make no difference. */
  lemma DischargeSeesOnlyNormalized(location: string)
    ensures EncodeDischargeLocation(location) == EncodeDischargeLocation(NormalizeLocation(location))
  {
    NormalizeIdempotent(location);
  }

  /** A location that normalises to the i-th literal sets column i. */
  lemma DischargeColumnSet(location: string, i: int)
    requires 0 <= i < 6 && NormalizeLocation(location) == DischargeLocations[i]
    ensures EncodeDischargeLocation(location)[DischargeKeys[i]] == 1
  {
    DischargeColumns(location);
  }

  /** A location that normalises to none of the literals sets no column. */
  lemma DischargeNoneSet(location: string)
    requires NormalizeLocation(location) !in DischargeLocations
    ensures IndicatorsSet(EncodeDischargeLocation(location)) == 0
  {
    DischargeColumns(location);
  }

  lemma DischargeExamplePadded()
    ensures EncodeDischargeLocation("  home\t")[DischargeKeys[0]] == 1
  {
    PaddedHome("  home\t");
    DischargeColumnSet("  home\t", 0);
  }

  lemma PaddedHome(location: string)
    requires location == "  home\t"
    ensures NormalizeLocation(location) == "HOME"
  {
    assert Strip(location) == "home" by {
      assert location == "  " + "home" + "\t";
      StripPadding("  ", "home", "\t");
    }
    assert Upper("home") == "HOME";
  }

  lemma DischargeExampleOtherFacility()
    ensures EncodeDischargeLocation("Other Facility")[DischargeKeys[5]] == 1
  {
    assert NormalizeLocation("Other Facility") == "OTHER FACILITY" by {
      StripOfTrimmed("Other Facility");
    }
    DischargeColumnSet("Other Facility", 5);
  }

  lemma DischargeExampleUnknown()
    ensures IndicatorsSet(EncodeDischargeLocation("HOSPICE")) == 0
  {
    HospiceIsNoLocation("HOSPICE");
    DischargeNoneSet("HOSPICE");
  }

  /** The text is taken as a parameter so that the proof works on it
      symbolically rather than by unfolding every function on the literal. */
  lemma HospiceIsNoLocation(location: string)
    requires location == "HOSPICE"
    ensures NormalizeLocation(location) !in DischargeLocations
  {
    StripOfTrimmed(location);
    UpperOfUppercase(location);
    assert |DischargeLocations[0]| == 4 && |DischargeLocations[1]| == 16 && |DischargeLocations[2]| == 3;
    assert |DischargeLocations[3]| == 19 && |DischargeLocations[4]| == 24 && |DischargeLocations[5]| == 14;
  }

  // ---------------------------------------------------------------------------
  // Insurance risk

  const InsuranceRisk: map<string, int> :=
    map["Medicare" := 3, "Medicaid" := 4, "Private" := 1, "Self Pay" := 2, "Government" := 2]

  /** get_insurance_risk: an exact, case-sensitive lookup; any other value,
      None or a non-string included, scores 0. */
  function GetInsuranceRisk(insurance: Option<string>): (r: int)
    ensures 0 <= r <= 4
    ensures r != 0 <==> insurance.Some? && insurance.value in InsuranceRisk
    ensures r != 0 ==> r == InsuranceRisk[insurance.value]
  {
    match insurance
    case Some(s) => if s in InsuranceRisk then InsuranceRisk[s] else 0
    case None => 0
  }

  lemma InsuranceExamples()
    ensures GetInsuranceRisk(Some("Medicare")) == 3
    ensures GetInsuranceRisk(Some("medicare")) == 0
    ensures GetInsuranceRisk(Some("Self Pay")) == 2
    ensures GetInsuranceRisk(None) == 0
  {
    assert "medicare" != "Medicare";
    assert "medicare"[0] != "Medicaid"[0] && "medicare"[0] != "Private"[0];
    assert "medicare"[0] != "Self Pay"[0] && "medicare"[0] != "Government"[0];
  }

  // ---------------------------------------------------------------------------
  // Length of stay and admission weekday

  /** strptime on a value read from the request: a non-string is a TypeError. */
  function ParseTimestamp(text: Option<string>): (r: Result<DateTime, Error>)
    ensures r.Success? ==> Valid(r.value)
    ensures text.None? ==> r == Failure(NotAString)
  {
    match text
    case None => Failure(NotAString)
    case Some(s) => Parse(s)
  }

  /** calculate_length_of_stay: the admission time is parsed first, then the
      discharge time, and the result is the day part of their difference. */
  function CalculateLengthOfStay(admitTime: Option<string>, dischargeTime: Option<string>): Result<int, Error> {
    var admit :- ParseTimestamp(admitTime);
    var discharge :- ParseTimestamp(dischargeTime);
    Success(DaysBetween(admit, discharge))
  }

  /** get_admit_weekday. */
  function GetAdmitWeekday(admitTime: Option<string>): Result<int, Error> {
    var admit :- ParseTimestamp(admitTime);
    Success(Weekday(admit))
  }

  /** The length of stay fails exactly when a timestamp fails to parse, and
      with the admission time's error when both do. */
  lemma LengthOfStayErrors(admitTime: Option<string>, dischargeTime: Option<string>)
    ensures ParseTimestamp(admitTime).Failure? ==>
              CalculateLengthOfStay(admitTime, dischargeTime) == Failure(ParseTimestamp(admitTime).error)
    ensures ParseTimestamp(admitTime).Success? && ParseTimestamp(dischargeTime).Failure? ==>
              CalculateLengthOfStay(admitTime, dischargeTime) == Failure(ParseTimestamp(dischargeTime).error)
    ensures ParseTimestamp(admitTime).Success? && ParseTimestamp(dischargeTime).Success? ==>
              CalculateLengthOfStay(admitTime, dischargeTime).Success?
  {
  }

  /** When both parse, the length of stay is the floor of the stay in seconds
      over 86400. */
  lemma LengthOfStayFloor(admitTime: Option<string>, dischargeTime: Option<string>)
    requires ParseTimestamp(admitTime).Success? && ParseTimestamp(dischargeTime).Success?
    ensures var a, d := ParseTimestamp(admitTime).value, ParseTimestamp(dischargeTime).value;
            var days := CalculateLengthOfStay(admitTime, dischargeTime).value;
            CalculateLengthOfStay(admitTime, dischargeTime).Success?
            && days * 86400 <= SecondsBetween(a, d) < days * 86400 + 86400
  {
  }

  /** A stay shorter than a day counts 0 days; a discharge up to a day before
      the admission counts -1. */
  lemma ShortStays(admit: DateTime, discharge: DateTime)
    requires Valid(admit) && Valid(discharge)
    ensures 0 <= SecondsBetween(admit, discharge) < 86400 ==> DaysBetween(admit, discharge) == 0
    ensures -86400 <= SecondsBetween(admit, discharge) < 0 ==> DaysBetween(admit, discharge) == -1
  {
  }

  /** Swapping the two times negates the day count when the stay is a whole
      number of days, and gives one day less than its negation otherwise. */
  lemma SwappedStay(admit: DateTime, discharge: DateTime)
    requires Valid(admit) && Valid(discharge)
    ensures SecondsBetween(admit, discharge) % 86400 == 0 ==>
              DaysBetween(discharge, admit) == -DaysBetween(admit, discharge)
    ensures SecondsBetween(admit, discharge) % 86400 != 0 ==>
              DaysBetween(discharge, admit) == -DaysBetween(admit, discharge) - 1
  {
    var s := SecondsBetween(admit, discharge);
    assert SecondsBetween(discharge, admit) == -s;
    FloorOfNegation(s);
  }

  lemma FloorOfNegation(s: int)
    ensures s % 86400 == 0 ==> (-s) / 86400 == -(s / 86400)
    ensures s % 86400 != 0 ==> (-s) / 86400 == -(s / 86400) - 1
  {
  }

  /** Two times of day that are equal give exactly the number of calendar days between them. */
  lemma SameTimeOfDay(admit: DateTime, discharge: DateTime)
    requires Valid(admit) && Valid(discharge)
    requires SecondOfDay(admit) == SecondOfDay(discharge)
    ensures DaysBetween(admit, discharge) == Ordinal(discharge) - Ordinal(admit)
  {
  }

  /** The weekday is 0..6 whenever the admission time parses, and the call
      fails exactly when it does not. */
  lemma AdmitWeekdaySpec(admitTime: Option<string>)
    ensures GetAdmitWeekday(admitTime).Failure? <==> ParseTimestamp(admitTime).Failure?
    ensures GetAdmitWeekday(admitTime).Success? ==> 0 <= GetAdmitWeekday(admitTime).value <= 6
  {
  }

  lemma ParseExampleEight(text: string)
    requires text == "2024-01-01 08:00:00"
    ensures ParseTimestamp(Some(text)) == Success(DateTime(2024, 1, 1, 8, 0, 0))
  {
    FieldsSpell(text, DateTime(2024, 1, 1, 8, 0, 0));
  }

  lemma ParseExampleNine(text: string)
    requires text == "2024-01-01 09:00:00"
    ensures ParseTimestamp(Some(text)) == Success(DateTime(2024, 1, 1, 9, 0, 0))
  {
    FieldsSpell(text, DateTime(2024, 1, 1, 9, 0, 0));
  }

  lemma ParseExampleThird(text: string)
    requires text == "2024-01-03 10:00:00"
    ensures ParseTimestamp(Some(text)) == Success(DateTime(2024, 1, 3, 10, 0, 0))
  {
    FieldsSpell(text, DateTime(2024, 1, 3, 10, 0, 0));
  }

  /** 50 hours from 2024-01-01 08:00 count as 2 days. */
  lemma LengthOfStayExample()
    ensures CalculateLengthOfStay(Some("2024-01-01 08:00:00"), Some("2024-01-03 10:00:00")) == Success(2)
  {
    ParseExampleEight("2024-01-01 08:00:00");
    ParseExampleThird("2024-01-03 10:00:00");
    StayOfFiftyHours();
  }

  lemma StayOfFiftyHours()
    ensures DaysBetween(DateTime(2024, 1, 1, 8, 0, 0), DateTime(2024, 1, 3, 10, 0, 0)) == 2
  {
    var a, d := DateTime(2024, 1, 1, 8, 0, 0), DateTime(2024, 1, 3, 10, 0, 0);
    assert Ordinal(d) == Ordinal(a) + 2;
    assert SecondsBetween(a, d) == 180000;
  }

  /** A discharge one hour before the admission counts -1 days. */
  lemma OneHourBackwardsExample()
    ensures CalculateLengthOfStay(Some("2024-01-01 09:00:00"), Some("2024-01-01 08:00:00")) == Success(-1)
  {
    ParseExampleNine("2024-01-01 09:00:00");
    ParseExampleEight("2024-01-01 08:00:00");
    ShortStays(DateTime(2024, 1, 1, 9, 0, 0), DateTime(2024, 1, 1, 8, 0, 0));
  }

  /** 2024-01-01 was a Monday. */
  lemma AdmitWeekdayExample()
    ensures GetAdmitWeekday(Some("2024-01-01 08:00:00")) == Success(0)
  {
    ParseExampleEight("2024-01-01 08:00:00");
    NewYearMonday();
  }

  lemma NewYearMonday()
    ensures Weekday(DateTime(2024, 1, 1, 8, 0, 0)) == 0
  {
    assert DaysBeforeYear(2024) == 738885;
    assert Ordinal(DateTime(2024, 1, 1, 8, 0, 0)) == 738886;
  }

  /** Month 13 fails the pattern of %m. */
  lemma MonthThirteenExample(text: string)
    requires text == "2024-13-01 08:00:00"
    ensures GetAdmitWeekday(Some(text)) == Failure(FormatMismatch(text))
  {
    FieldsSpell(text, DateTime(2024, 13, 1, 8, 0, 0));
  }

  /** February 29th of a common year matches the pattern but is no date. */
  lemma NoLeapDayExample(text: string)
    requires text == "2023-02-29 08:00:00"
    ensures GetAdmitWeekday(Some(text)) == Failure(OutOfRange(text))
  {
    FieldsSpell(text, DateTime(2023, 2, 29, 8, 0, 0));
    assert !IsLeapYear(2023);
  }

  lemma WrongSeparatorExample()
    ensures GetAdmitWeekday(Some("2024-01-01T08:00:00")) == Failure(FormatMismatch("2024-01-01T08:00:00"))
    ensures GetAdmitWeekday(None) == Failure(NotAString)
  {
    assert "2024-01-01T08:00:00"[10] == 'T';
  }
}
