/**
 * The request body of /predict, the feature map the handler builds from it,
 * and the fixed-order 31-entry input vector of the classifier.
 */
module Features {
  import opened Wrappers
  import opened Calendar
  import opened Encoders

  /** A JSON value of the request body. Python's data.get gives None both for
      an absent key and for JSON null; both are Null here. */
  datatype Json = Number(n: real) | Str(s: string) | Null

  /** A value of the handler's result dict: a passed-through lab value (float),
      an encoded feature (int), a request string, or None. */
  datatype Value = Num(r: real) | Int(i: int) | Text(s: string) | Nothing

  /** data.get(key) */
  function Get(data: map<string, Json>, key: string): (v: Json)
    ensures key !in data ==> v == Null
  {
    if key in data then data[key] else Null
  }

  /** The string a value holds; None for every non-string. */
  function AsString(v: Json): (r: Option<string>)
    ensures r.Some? <==> v.Str?
  {
    if v.Str? then Some(v.s) else None
  }

  /** Calling a str method on a request value: a non-string (None or a number)
      has no such method and raises AttributeError. */
  function StringForMethod(v: Json, name: string): (r: Result<string, Error>)
    ensures r.Success? <==> v.Str?
    ensures r.Success? ==> r.value == v.s
    ensures r.Failure? ==> r.error == NoSuchMethod(name)
  {
    if v.Str? then Success(v.s) else Failure(NoSuchMethod(name))
  }

  /** A lab: the request key of its value (also its key in the result), the
      request key of its flag, and the result key of the encoded flag. */
  datatype Lab = Lab(key: string, flagKey: string, flagFeature: string)

  /** The ten labs in the order the handler reads them. */
  const Labs: seq<Lab> := [
    Lab("ntprobnp", "ntprobnp_flag", "ntprobnp_flag"),
    Lab("creatinine", "creatinine_flag", "creatinine_flag"),
    Lab("urea_nitrogen", "urea_nitrogen_flag", "urea nitrogen_flag"),
    Lab("sodium", "sodium_flag", "sodium_flag"),
    Lab("potassium", "potassium_flag", "potassium_flag"),
    Lab("albumin", "albumin_flag", "albumin_flag"),
    Lab("c_reactive_protein", "c_reactive_protein_flag", "c-reactive protein_flag"),
    Lab("hemoglobin", "hemoglobin_flag", "hemoglobin_flag"),
    Lab("hematocrit", "hematocrit_flag", "hematocrit_flag"),
    Lab("magnesium", "magnesium_flag", "magnesium_flag")
  ]

  /** float(data.get(key)) for each lab in turn; the first value that is not a
      number raises TypeError. */
  function LabValues(data: map<string, Json>, labs: seq<Lab>): (r: Result<map<string, Value>, Error>)
    ensures r.Success? <==> forall i :: 0 <= i < |labs| ==> Get(data, labs[i].key).Number?
    ensures r.Failure? ==> r.error == NotANumber
    decreases |labs|
  {
    if labs == [] then Success(map[])
    else
      match Get(data, labs[0].key)
      case Number(x) =>
        var rest :- LabValues(data, labs[1..]);
        assert forall i :: 1 <= i < |labs| ==> labs[i] == labs[1..][i - 1];
        Success(rest[labs[0].key := Num(x)])
      case _ => Failure(NotANumber)
  }

  /** The lab values are stored as floats under the labs' own keys, and
      nothing else is. */
  lemma {:induction false} LabValuesContents(data: map<string, Json>, labs: seq<Lab>)
    requires LabValues(data, labs).Success?
    ensures var m := LabValues(data, labs).value;
            && m.Keys == (set i | 0 <= i < |labs| :: labs[i].key)
            && (forall k :: k in m ==> m[k].Num?)
            && (forall i :: 0 <= i < |labs| ==> m[labs[i].key] == Num(Get(data, labs[i].key).n))
    decreases |labs|
  {
    if labs != [] {
      assert forall i :: 1 <= i < |labs| ==> labs[i] == labs[1..][i - 1];
      LabValuesContents(data, labs[1..]);
    }
  }

  predicate FlagFeaturesDistinct(labs: seq<Lab>) {
    forall i, j :: 0 <= i < j < |labs| ==> labs[i].flagFeature != labs[j].flagFeature
  }

  /** encode_flag(data.get(flagKey)) for each lab in turn, stored under the
      flag's result key; the first flag that is not a string raises
      AttributeError on lower(). */
  function FlagValues(data: map<string, Json>, labs: seq<Lab>): (r: Result<map<string, Value>, Error>)
    ensures r.Success? <==> forall i :: 0 <= i < |labs| ==> Get(data, labs[i].flagKey).Str?
    ensures r.Failure? ==> r.error == NoSuchMethod("lower")
    decreases |labs|
  {
    if labs == [] then Success(map[])
    else
      match Get(data, labs[0].flagKey)
      case Str(s) =>
        var rest :- FlagValues(data, labs[1..]);
        assert forall i :: 1 <= i < |labs| ==> labs[i] == labs[1..][i - 1];
        Success(rest[labs[0].flagFeature := Int(EncodeFlag(s))])
      case _ => Failure(NoSuchMethod("lower"))
  }

  /** The encoded flags are stored as ints under the flags' result keys, and
      nothing else is; when those keys are distinct each holds its own flag. */
  lemma {:induction false} FlagValuesContents(data: map<string, Json>, labs: seq<Lab>)
    requires FlagValues(data, labs).Success?
    ensures var m := FlagValues(data, labs).value;
            && m.Keys == (set i | 0 <= i < |labs| :: labs[i].flagFeature)
            && (forall k :: k in m ==> m[k].Int?)
            && (FlagFeaturesDistinct(labs) ==> forall i :: 0 <= i < |labs| ==>
                  m[labs[i].flagFeature] == Int(EncodeFlag(Get(data, labs[i].flagKey).s)))
    decreases |labs|
  {
    if labs != [] {
      assert forall i :: 1 <= i < |labs| ==> labs[i] == labs[1..][i - 1];
      FlagValuesContents(data, labs[1..]);
    }
  }

  /** An encoder's indicator dict as result entries. */
  function IntColumns(m: map<string, int>): (r: map<string, Value>)
    ensures r.Keys == m.Keys
    ensures forall k :: k in r ==> r[k] == Int(m[k])
  {
    map k | k in m :: Int(m[k])
  }

  /** The values the handler computes from the request before it builds its
      result dict, in the order it computes them: the lab values, the flags,
      the admission type and discharge location (whose encoders call upper()
      and strip() on them), the insurance risk, the length of stay and the
      admission weekday. The first step that raises ends the request. The
      handler reads the ten labs of Labs; the table is a parameter here. */
  function FeatureSteps(data: map<string, Json>, labs: seq<Lab>): Result<Parts, Error> {
    var values :- LabValues(data, labs);
    var flags :- FlagValues(data, labs);
    var admissionType :- StringForMethod(Get(data, "admission_type"), "upper");
    var admission := EncodeAdmissionType(admissionType);
    var dischargeLocation :- StringForMethod(Get(data, "discharge_location"), "strip");
    var discharge := EncodeDischargeLocation(dischargeLocation);
    var risk := GetInsuranceRisk(AsString(Get(data, "insurance")));
    var stay :- CalculateLengthOfStay(AsString(Get(data, "admit_time")), AsString(Get(data, "discharge_time")));
    var weekday :- GetAdmitWeekday(AsString(Get(data, "admit_time")));
    Success(Parts(values, flags, admission, discharge, risk, stay, weekday))
  }

  /** The feature entries of the handler's result dict (the request fields
      copied for the record are added by the handler): every lab value, every
      encoded flag, both admission indicators, the six discharge indicators,
      the insurance risk, the length of stay and the admission weekday. */
  function BuildFeatures(data: map<string, Json>): Result<map<string, Value>, Error> {
    var p :- FeatureSteps(data, Labs);
    Success(Join(p))
  }

  /** The pieces BuildFeatures joins when every step succeeds. */
  datatype Parts = Parts(labs: map<string, Value>, flags: map<string, Value>, admission: map<string, int>,
                         discharge: map<string, int>, risk: int, stay: int, weekday: int)

  /** The key sets the handler's steps give the pieces. */
  predicate Keyed(p: Parts) {
    && p.labs.Keys == LabKeys() && p.flags.Keys == FlagFeatureKeys()
    && p.admission.Keys == AdmissionKeys && p.discharge.Keys == DischargeKeySet()
  }

  function Join(p: Parts): map<string, Value> {
    p.labs + p.flags
    + IntColumns(p.admission)
    + IntColumns(p.discharge)
    + map["insurance_risk" := Int(p.risk), "length_of_stay" := Int(p.stay), "admit_weekday" := Int(p.weekday)]
  }

  lemma JoinIsNumeric(p: Parts)
    requires forall k :: k in p.labs ==> p.labs[k].Num?
    requires forall k :: k in p.flags ==> p.flags[k].Int?
    ensures forall k :: k in Join(p) ==> Join(p)[k].Num? || Join(p)[k].Int?
  {
    var tail := map["insurance_risk" := Int(p.risk), "length_of_stay" := Int(p.stay), "admit_weekday" := Int(p.weekday)];
    var a := IntColumns(p.admission);
    var d := IntColumns(p.discharge);
    UnionIsNumeric(p.labs, p.flags);
    UnionIsNumeric(p.labs + p.flags, a);
    UnionIsNumeric(p.labs + p.flags + a, d);
    UnionIsNumeric(p.labs + p.flags + a + d, tail);
  }

  predicate IsNumeric(m: map<string, Value>) {
    forall k :: k in m ==> m[k].Num? || m[k].Int?
  }

  lemma UnionIsNumeric(m: map<string, Value>, n: map<string, Value>)
    requires IsNumeric(m) && IsNumeric(n)
    ensures IsNumeric(m + n)
  {
  }

  /** What each step of successful FeatureSteps produced. */
  lemma StepResults(data: map<string, Json>, labs: seq<Lab>)
    requires FeatureSteps(data, labs).Success?
    ensures var p := FeatureSteps(data, labs).value;
            && LabValues(data, labs) == Success(p.labs) && FlagValues(data, labs) == Success(p.flags)
            && Get(data, "admission_type").Str? && Get(data, "discharge_location").Str?
            && p.admission == EncodeAdmissionType(Get(data, "admission_type").s)
            && p.discharge == EncodeDischargeLocation(Get(data, "discharge_location").s)
            && p.risk == GetInsuranceRisk(AsString(Get(data, "insurance")))
            && CalculateLengthOfStay(AsString(Get(data, "admit_time")), AsString(Get(data, "discharge_time"))) == Success(p.stay)
            && GetAdmitWeekday(AsString(Get(data, "admit_time"))) == Success(p.weekday)
  {
  }

  /** A successful build is the join of the steps' results. */
  lemma BuildIsJoin(data: map<string, Json>)
    requires BuildFeatures(data).Success?
    ensures FeatureSteps(data, Labs).Success?
    ensures BuildFeatures(data) == Success(Join(FeatureSteps(data, Labs).value))
  {
  }

  /** What each step of a successful BuildFeatures produced. */
  lemma FeatureParts(data: map<string, Json>) returns (p: Parts)
    requires BuildFeatures(data).Success?
    ensures BuildFeatures(data).value == Join(p)
    ensures LabValues(data, Labs) == Success(p.labs) && FlagValues(data, Labs) == Success(p.flags)
    ensures Keyed(p)
    ensures Get(data, "admission_type").Str? && Get(data, "discharge_location").Str?
    ensures p.admission == EncodeAdmissionType(Get(data, "admission_type").s)
    ensures p.discharge == EncodeDischargeLocation(Get(data, "discharge_location").s)
    ensures p.risk == GetInsuranceRisk(AsString(Get(data, "insurance")))
    ensures CalculateLengthOfStay(AsString(Get(data, "admit_time")), AsString(Get(data, "discharge_time"))) == Success(p.stay)
    ensures GetAdmitWeekday(AsString(Get(data, "admit_time"))) == Success(p.weekday)
  {
    BuildIsJoin(data);
    p := FeatureSteps(data, Labs).value;
    StepResults(data, Labs);
    LabValuesContents(data, Labs);
    FlagValuesContents(data, Labs);
  }

  /** The column order the classifier was trained on. */
  const FeatureOrder: seq<string> := [
    "ntprobnp", "ntprobnp_flag", "creatinine", "creatinine_flag",
    "urea nitrogen", "urea nitrogen_flag", "sodium", "sodium_flag",
    "potassium", "potassium_flag", "albumin", "albumin_flag",
    "c-reactive protein", "c-reactive protein_flag", "hemoglobin", "hemoglobin_flag",
    "hematocrit", "hematocrit_flag", "magnesium", "magnesium_flag",
    "admission_type_EMERGENCY", "admission_type_URGENT",
    "discharge_location_HOME", "discharge_location_HOME HEALTH CARE",
    "discharge_location_SNF", "discharge_location_SHORT TERM HOSPITAL",
    "discharge_location_REHAB/DISTINCT PART HOSP", "discharge_location_OTHER FACILITY",
    "insurance_risk", "length_of_stay", "admit_weekday"
  ]

  /** [result.get(f, 0) for f in feature_order] */
  function Assemble(result: map<string, Value>): (v: seq<Value>)
    ensures |v| == |FeatureOrder| == 31
    ensures forall i :: 0 <= i < 31 ==>
              v[i] == if FeatureOrder[i] in result then result[FeatureOrder[i]] else Int(0)
  {
    seq(|FeatureOrder|, i requires 0 <= i < |FeatureOrder| =>
      if FeatureOrder[i] in result then result[FeatureOrder[i]] else Int(0))
  }

  /** The numeric array handed to the classifier. */
  function AsFloats(v: seq<Value>): (x: seq<real>)
    requires forall i :: 0 <= i < |v| ==> v[i].Num? || v[i].Int?
    ensures |x| == |v|
    ensures forall i :: 0 <= i < |v| ==> x[i] == if v[i].Num? then v[i].r else v[i].i as real
  {
    seq(|v|, i requires 0 <= i < |v| => if v[i].Num? then v[i].r else v[i].i as real)
  }

  /** Entries under keys the order does not name never reach the vector, so the
      request fields copied into the record leave it as it is. */
  lemma AssembleIgnoresOtherKeys(result: map<string, Value>, extra: map<string, Value>)
    requires forall k :: k in extra ==> k !in FeatureOrder
    ensures Assemble(result + extra) == Assemble(result)
  {
    forall i | 0 <= i < 31 ensures Assemble(result + extra)[i] == Assemble(result)[i] {
      assert FeatureOrder[i] in FeatureOrder;
    }
  }

  /** Every entry of a built feature map is a number. */
  lemma BuiltIsNumeric(data: map<string, Json>)
    requires BuildFeatures(data).Success?
    ensures IsNumeric(BuildFeatures(data).value)
  {
    var p := FeatureParts(data);
    LabValuesContents(data, Labs);
    FlagValuesContents(data, Labs);
    JoinIsNumeric(p);
  }

  /** Every entry of an assembled feature map is a number, so the array exists. */
  lemma AssembledIsNumeric(data: map<string, Json>)
    requires BuildFeatures(data).Success?
    ensures forall i :: 0 <= i < 31 ==>
              Assemble(BuildFeatures(data).value)[i].Num? || Assemble(BuildFeatures(data).value)[i].Int?
  {
    BuiltIsNumeric(data);
    AssembleOfNumeric(BuildFeatures(data).value);
  }

  lemma AssembleOfNumeric(result: map<string, Value>)
    requires forall k :: k in result ==> result[k].Num? || result[k].Int?
    ensures forall i :: 0 <= i < 31 ==> Assemble(result)[i].Num? || Assemble(result)[i].Int?
  {
  }

  /** The key sets of the five pieces of the feature map. */
  function LabKeys(): set<string> { set i | 0 <= i < |Labs| :: Labs[i].key }
  function FlagFeatureKeys(): set<string> { set i | 0 <= i < |Labs| :: Labs[i].flagFeature }
  const AdmissionKeys: set<string> := {EmergencyKey, UrgentKey}
  function DischargeKeySet(): set<string> { set k | k in DischargeKeys }
  const SummaryKeys: set<string> := {"insurance_risk", "length_of_stay", "admit_weekday"}

  /** Which piece a key of the joined map comes from: later pieces win, as in
      Python's dict literal, but the pieces share no key. */
  lemma JoinLookup(p: Parts, k: string)
    requires Keyed(p)
    ensures k in Join(p) <==> k in LabKeys() + FlagFeatureKeys() + AdmissionKeys + DischargeKeySet() + SummaryKeys
    ensures k in LabKeys() ==> Join(p)[k] == p.labs[k]
    ensures k in FlagFeatureKeys() ==> Join(p)[k] == p.flags[k]
    ensures k in AdmissionKeys ==> Join(p)[k] == Int(p.admission[k])
    ensures k in DischargeKeySet() ==> Join(p)[k] == Int(p.discharge[k])
    ensures Join(p)["insurance_risk"] == Int(p.risk)
    ensures Join(p)["length_of_stay"] == Int(p.stay)
    ensures Join(p)["admit_weekday"] == Int(p.weekday)
  {
    KeysDisjoint();
    var tail := map["insurance_risk" := Int(p.risk), "length_of_stay" := Int(p.stay), "admit_weekday" := Int(p.weekday)];
    UnionOfFive(p.labs, p.flags, IntColumns(p.admission), IntColumns(p.discharge), tail, k);
  }

  /** A lookup in the union of five maps with disjoint keys finds the one map
      that holds the key. */
  lemma UnionOfFive(m1: map<string, Value>, m2: map<string, Value>, m3: map<string, Value>,
                    m4: map<string, Value>, m5: map<string, Value>, k: string)
    requires m1.Keys !! m2.Keys && (m1.Keys + m2.Keys) !! (m3.Keys + m4.Keys + m5.Keys)
    requires m3.Keys !! m4.Keys && (m3.Keys + m4.Keys) !! m5.Keys
    ensures k in m1 + m2 + m3 + m4 + m5 <==> k in m1.Keys + m2.Keys + m3.Keys + m4.Keys + m5.Keys
    ensures k in m1 ==> (m1 + m2 + m3 + m4 + m5)[k] == m1[k]
    ensures k in m2 ==> (m1 + m2 + m3 + m4 + m5)[k] == m2[k]
    ensures k in m3 ==> (m1 + m2 + m3 + m4 + m5)[k] == m3[k]
    ensures k in m4 ==> (m1 + m2 + m3 + m4 + m5)[k] == m4[k]
    ensures k in m5 ==> (m1 + m2 + m3 + m4 + m5)[k] == m5[k]
  {
  }

  lemma JoinLab(p: Parts, k: string)
    requires Keyed(p)
    requires k in LabKeys()
    ensures k in Join(p) && Join(p)[k] == p.labs[k]
  {
    JoinLookup(p, k);
  }

  lemma JoinFlag(p: Parts, k: string)
    requires Keyed(p)
    requires k in FlagFeatureKeys()
    ensures k in Join(p) && Join(p)[k] == p.flags[k]
  {
    JoinLookup(p, k);
  }

  lemma KeysDisjoint()
    ensures LabKeys() !! FlagFeatureKeys()
    ensures (LabKeys() + FlagFeatureKeys()) !! (AdmissionKeys + DischargeKeySet() + SummaryKeys)
    ensures AdmissionKeys !! DischargeKeySet() && (AdmissionKeys + DischargeKeySet()) !! SummaryKeys
  {
    LabsApart();
    TypedKeysApart();
  }

  lemma LabsApart()
    ensures LabKeys() !! FlagFeatureKeys()
    ensures (LabKeys() + FlagFeatureKeys()) !! (AdmissionKeys + DischargeKeySet() + SummaryKeys)
  {
    LabsApartFromFlags();
    LabsApartFromIndicators();
    LabsApartFromSummary();
  }

  lemma LabsApartFromFlags()
    ensures LabKeys() !! FlagFeatureKeys()
  {
  }

  lemma LabsApartFromIndicators()
    ensures (LabKeys() + FlagFeatureKeys()) !! (AdmissionKeys + DischargeKeySet())
  {
  }

  lemma LabsApartFromSummary()
    ensures (LabKeys() + FlagFeatureKeys()) !! SummaryKeys
  {
  }

  lemma TypedKeysApart()
    ensures AdmissionKeys !! DischargeKeySet() && (AdmissionKeys + DischargeKeySet()) !! SummaryKeys
  {
  }

  /** How feature_order lines up with the keys the handler writes: lab i's
      value and flag at 2i and 2i+1, except that two lab names are spelled
      differently from the result keys ("urea nitrogen" for "urea_nitrogen",
      "c-reactive protein" for "c_reactive_protein") and match no key. */
  lemma OrderMatchesKeys()
    ensures forall i :: 0 <= i < 10 && i != 2 && i != 6 ==> FeatureOrder[2 * i] == Labs[i].key
    ensures forall i :: 0 <= i < 10 ==> FeatureOrder[2 * i + 1] == Labs[i].flagFeature
    ensures FeatureOrder[20] == EmergencyKey && FeatureOrder[21] == UrgentKey
    ensures forall j :: 0 <= j < 6 ==> FeatureOrder[22 + j] == DischargeKeys[j]
    ensures FeatureOrder[28] == "insurance_risk" && FeatureOrder[29] == "length_of_stay"
    ensures FeatureOrder[30] == "admit_weekday"
  {
    OrderOfLabs();
    OrderOfFlags();
    OrderOfIndicators();
    OrderOfSummary();
  }

  lemma OrderOfLabs()
    ensures forall i :: 0 <= i < 10 && i != 2 && i != 6 ==> FeatureOrder[2 * i] == Labs[i].key
  {
  }

  lemma OrderOfFlags()
    ensures forall i :: 0 <= i < 10 ==> FeatureOrder[2 * i + 1] == Labs[i].flagFeature
  {
  }

  lemma OrderOfIndicators()
    ensures FeatureOrder[20] == EmergencyKey && FeatureOrder[21] == UrgentKey
    ensures forall j :: 0 <= j < 6 ==> FeatureOrder[22 + j] == DischargeKeys[j]
  {
  }

  lemma OrderOfSummary()
    ensures FeatureOrder[28] == "insurance_risk" && FeatureOrder[29] == "length_of_stay"
    ensures FeatureOrder[30] == "admit_weekday"
  {
  }

  /** The two misspelt lab names match no key of the feature map. */
  lemma MisspeltLabsMatchNothing()
    ensures FeatureOrder[4] !in LabKeys() + FlagFeatureKeys() + AdmissionKeys + DischargeKeySet() + SummaryKeys
    ensures FeatureOrder[12] !in LabKeys() + FlagFeatureKeys() + AdmissionKeys + DischargeKeySet() + SummaryKeys
  {
    UreaNameMatchesNothing();
    ReactiveProteinNameMatchesNothing();
  }

  lemma UreaNameMatchesNothing()
    ensures FeatureOrder[4] !in LabKeys() + FlagFeatureKeys() + AdmissionKeys + DischargeKeySet() + SummaryKeys
  {
    assert FeatureOrder[4] == "urea nitrogen";
    NameMatchesNoLab("urea nitrogen");
    NameMatchesNoFlag("urea nitrogen");
    NameMatchesNoTypedKey("urea nitrogen");
  }

  lemma ReactiveProteinNameMatchesNothing()
    ensures FeatureOrder[12] !in LabKeys() + FlagFeatureKeys() + AdmissionKeys + DischargeKeySet() + SummaryKeys
  {
    assert FeatureOrder[12] == "c-reactive protein";
    NameMatchesNoLab("c-reactive protein");
    NameMatchesNoFlag("c-reactive protein");
    NameMatchesNoTypedKey("c-reactive protein");
  }

  /** A name with a space in it is no lab key. */
  lemma NameMatchesNoLab(name: string)
    requires ' ' in name
    ensures name !in LabKeys()
  {
    forall i | 0 <= i < |Labs| ensures name != Labs[i].key {
      LabKeyHasNoSpace(i);
    }
  }

  lemma LabKeyHasNoSpace(i: int)
    requires 0 <= i < |Labs|
    ensures ' ' !in Labs[i].key
  {
    var k := Labs[i].key;
    assert forall j :: 0 <= j < |k| ==> k[j] != ' ';
  }

  /** A name that does not end in "g" is no flag column. */
  lemma NameMatchesNoFlag(name: string)
    requires |name| > 0 && name[|name| - 1] != 'g'
    ensures name !in FlagFeatureKeys()
  {
    forall i | 0 <= i < |Labs| ensures Labs[i].flagFeature[|Labs[i].flagFeature| - 1] == 'g' {
    }
  }

  /** The indicator and summary columns begin with 'a', 'd', 'i' or 'l'. */
  lemma NameMatchesNoTypedKey(name: string)
    requires |name| > 0 && name[0] != 'a' && name[0] != 'd' && name[0] != 'i' && name[0] != 'l'
    ensures name !in AdmissionKeys + DischargeKeySet() + SummaryKeys
  {
  }

  lemma LabFlagFeaturesDistinct()
    ensures FlagFeaturesDistinct(Labs)
  {
  }

  /** Even positions hold the lab values, except positions 4 and 12, whose
      misspelt names make them 0 whatever the labs are. */
  lemma LabColumns(data: map<string, Json>)
    requires BuildFeatures(data).Success?
    ensures forall i :: 0 <= i < 10 && i != 2 && i != 6 ==>
              Get(data, Labs[i].key).Number?
              && Assemble(BuildFeatures(data).value)[2 * i] == Num(Get(data, Labs[i].key).n)
    ensures Assemble(BuildFeatures(data).value)[4] == Int(0)
    ensures Assemble(BuildFeatures(data).value)[12] == Int(0)
  {
    forall i | 0 <= i < 10 && i != 2 && i != 6
      ensures Get(data, Labs[i].key).Number?
      ensures Assemble(BuildFeatures(data).value)[2 * i] == Num(Get(data, Labs[i].key).n)
    {
      LabColumnAt(data, i);
    }
    MisspeltColumns(data);
  }

  lemma LabColumnAt(data: map<string, Json>, i: int)
    requires BuildFeatures(data).Success?
    requires 0 <= i < 10 && i != 2 && i != 6
    ensures Get(data, Labs[i].key).Number?
    ensures Assemble(BuildFeatures(data).value)[2 * i] == Num(Get(data, Labs[i].key).n)
  {
    var p := FeatureParts(data);
    LabColumnOfJoin(p, i);
    LabValueAt(data, i);
  }

  lemma LabColumnOfJoin(p: Parts, i: int)
    requires Keyed(p)
    requires 0 <= i < 10 && i != 2 && i != 6
    ensures Assemble(Join(p))[2 * i] == p.labs[Labs[i].key]
  {
    OrderOfLabs();
    JoinLab(p, Labs[i].key);
  }

  lemma LabValueAt(data: map<string, Json>, i: int)
    requires LabValues(data, Labs).Success?
    requires 0 <= i < 10
    ensures Get(data, Labs[i].key).Number?
    ensures Labs[i].key in LabValues(data, Labs).value
    ensures LabValues(data, Labs).value[Labs[i].key] == Num(Get(data, Labs[i].key).n)
  {
    LabValuesContents(data, Labs);
  }

  lemma MisspeltColumns(data: map<string, Json>)
    requires BuildFeatures(data).Success?
    ensures Assemble(BuildFeatures(data).value)[4] == Int(0)
    ensures Assemble(BuildFeatures(data).value)[12] == Int(0)
  {
    var p := FeatureParts(data);
    MisspeltLabsMatchNothing();
    JoinLookup(p, FeatureOrder[4]);
    JoinLookup(p, FeatureOrder[12]);
  }

  /** Odd positions 1..19 hold the encoded flags of the ten labs. */
  lemma FlagColumns(data: map<string, Json>)
    requires BuildFeatures(data).Success?
    ensures forall i :: 0 <= i < 10 ==>
              Get(data, Labs[i].flagKey).Str?
              && Assemble(BuildFeatures(data).value)[2 * i + 1] == Int(EncodeFlag(Get(data, Labs[i].flagKey).s))
  {
    forall i | 0 <= i < 10
      ensures Get(data, Labs[i].flagKey).Str?
      ensures Assemble(BuildFeatures(data).value)[2 * i + 1] == Int(EncodeFlag(Get(data, Labs[i].flagKey).s))
    {
      FlagColumnAt(data, i);
    }
  }

  lemma FlagColumnAt(data: map<string, Json>, i: int)
    requires BuildFeatures(data).Success?
    requires 0 <= i < 10
    ensures Get(data, Labs[i].flagKey).Str?
    ensures Assemble(BuildFeatures(data).value)[2 * i + 1] == Int(EncodeFlag(Get(data, Labs[i].flagKey).s))
  {
    var p := FeatureParts(data);
    FlagColumnOfJoin(p, i);
    FlagValueAt(data, i);
  }

  lemma FlagColumnOfJoin(p: Parts, i: int)
    requires Keyed(p)
    requires 0 <= i < 10
    ensures Assemble(Join(p))[2 * i + 1] == p.flags[Labs[i].flagFeature]
  {
    OrderOfFlags();
    JoinFlag(p, Labs[i].flagFeature);
  }

  lemma FlagValueAt(data: map<string, Json>, i: int)
    requires FlagValues(data, Labs).Success?
    requires 0 <= i < 10
    ensures Get(data, Labs[i].flagKey).Str?
    ensures Labs[i].flagFeature in FlagValues(data, Labs).value
    ensures FlagValues(data, Labs).value[Labs[i].flagFeature] == Int(EncodeFlag(Get(data, Labs[i].flagKey).s))
  {
    FlagValuesContents(data, Labs);
    LabFlagFeaturesDistinct();
  }

  /** Positions 20..27 hold the admission and discharge indicators. */
  lemma CategoricalColumns(data: map<string, Json>)
    requires BuildFeatures(data).Success?
    ensures Get(data, "admission_type").Str? && Get(data, "discharge_location").Str?
    ensures Assemble(BuildFeatures(data).value)[20]
              == Int(EncodeAdmissionType(Get(data, "admission_type").s)[EmergencyKey])
    ensures Assemble(BuildFeatures(data).value)[21]
              == Int(EncodeAdmissionType(Get(data, "admission_type").s)[UrgentKey])
    ensures forall j :: 0 <= j < 6 ==>
              Assemble(BuildFeatures(data).value)[22 + j]
              == Int(EncodeDischargeLocation(Get(data, "discharge_location").s)[DischargeKeys[j]])
  {
    var p := FeatureParts(data);
    OrderOfIndicators();
    JoinLookup(p, EmergencyKey);
    JoinLookup(p, UrgentKey);
    forall j | 0 <= j < 6
      ensures Assemble(BuildFeatures(data).value)[22 + j]
                == Int(p.discharge[DischargeKeys[j]])
    {
      JoinLookup(p, DischargeKeys[j]);
    }
  }

  /** The last three positions hold the insurance risk, the length of stay
      and the admission weekday. */
  lemma SummaryColumns(data: map<string, Json>)
    requires BuildFeatures(data).Success?
    ensures Assemble(BuildFeatures(data).value)[28] == Int(GetInsuranceRisk(AsString(Get(data, "insurance"))))
    ensures var stay := CalculateLengthOfStay(AsString(Get(data, "admit_time")), AsString(Get(data, "discharge_time")));
            stay.Success? && Assemble(BuildFeatures(data).value)[29] == Int(stay.value)
    ensures var weekday := GetAdmitWeekday(AsString(Get(data, "admit_time")));
            weekday.Success? && Assemble(BuildFeatures(data).value)[30] == Int(weekday.value)
  {
    var p := FeatureParts(data);
    OrderOfSummary();
    JoinLookup(p, "insurance_risk");
  }

  /** The exception a request raises, read off its fields in the handler's
      order: a missing or non-numeric lab, then a flag that is not a string,
      then the admission type, the discharge location, and the two timestamps;
      None when every field is usable. */
  function FirstError(data: map<string, Json>, labs: seq<Lab>): Option<Error> {
    if exists i :: 0 <= i < |labs| && !Get(data, labs[i].key).Number? then Some(NotANumber)
    else if exists i :: 0 <= i < |labs| && !Get(data, labs[i].flagKey).Str? then Some(NoSuchMethod("lower"))
    else if !Get(data, "admission_type").Str? then Some(NoSuchMethod("upper"))
    else if !Get(data, "discharge_location").Str? then Some(NoSuchMethod("strip"))
    else if ParseTimestamp(AsString(Get(data, "admit_time"))).Failure? then
      Some(ParseTimestamp(AsString(Get(data, "admit_time"))).error)
    else if ParseTimestamp(AsString(Get(data, "discharge_time"))).Failure? then
      Some(ParseTimestamp(AsString(Get(data, "discharge_time"))).error)
    else None
  }

  /** Building the features fails exactly when some field is unusable, with
      the exception of the first such field; the insurance field never fails. */
  lemma BuildFeaturesFailsAt(data: map<string, Json>)
    ensures BuildFeatures(data).Failure? <==> FirstError(data, Labs).Some?
    ensures BuildFeatures(data).Failure? ==> BuildFeatures(data).error == FirstError(data, Labs).value
  {
    StepsFailAt(data, Labs);
  }

  lemma StepsFailAt(data: map<string, Json>, labs: seq<Lab>)
    ensures FeatureSteps(data, labs).Failure? <==> FirstError(data, labs).Some?
    ensures FeatureSteps(data, labs).Failure? ==> FeatureSteps(data, labs).error == FirstError(data, labs).value
  {
    var labsOk := forall i :: 0 <= i < |labs| ==> Get(data, labs[i].key).Number?;
    var flagsOk := forall i :: 0 <= i < |labs| ==> Get(data, labs[i].flagKey).Str?;
    if !labsOk {
      assert FeatureSteps(data, labs) == Failure(NotANumber);
      assert FirstError(data, labs) == Some(NotANumber);
    } else if !flagsOk {
      assert FeatureSteps(data, labs) == Failure(NoSuchMethod("lower"));
      assert FirstError(data, labs) == Some(NoSuchMethod("lower"));
    } else if Get(data, "admission_type").Str? && Get(data, "discharge_location").Str? {
      TimestampStepsLast(data, labs);
      TimestampErrorFirst(data, labs);
    } else {
      CategoricalErrors(data, labs);
    }
  }

  /** A categorical field that is not a string fails the build after the
      labs and flags, the admission type before the discharge location. */
  lemma CategoricalErrors(data: map<string, Json>, labs: seq<Lab>)
    requires forall i :: 0 <= i < |labs| ==> Get(data, labs[i].key).Number?
    requires forall i :: 0 <= i < |labs| ==> Get(data, labs[i].flagKey).Str?
    ensures !Get(data, "admission_type").Str? ==>
              FeatureSteps(data, labs) == Failure(NoSuchMethod("upper")) && FirstError(data, labs) == Some(NoSuchMethod("upper"))
    ensures Get(data, "admission_type").Str? && !Get(data, "discharge_location").Str? ==>
              FeatureSteps(data, labs) == Failure(NoSuchMethod("strip")) && FirstError(data, labs) == Some(NoSuchMethod("strip"))
  {
  }

  /** Once the labs, flags and the two categorical fields are usable, the
      build fails with the error of the timestamps, if any. */
  lemma TimestampStepsLast(data: map<string, Json>, labs: seq<Lab>)
    requires forall i :: 0 <= i < |labs| ==> Get(data, labs[i].key).Number?
    requires forall i :: 0 <= i < |labs| ==> Get(data, labs[i].flagKey).Str?
    requires Get(data, "admission_type").Str? && Get(data, "discharge_location").Str?
    ensures var admit, discharge := ParseTimestamp(AsString(Get(data, "admit_time"))),
                                    ParseTimestamp(AsString(Get(data, "discharge_time")));
            && (admit.Failure? ==> FeatureSteps(data, labs) == Failure(admit.error))
            && (admit.Success? && discharge.Failure? ==> FeatureSteps(data, labs) == Failure(discharge.error))
            && (admit.Success? && discharge.Success? ==> FeatureSteps(data, labs).Success?)
  {
    var admit, discharge := AsString(Get(data, "admit_time")), AsString(Get(data, "discharge_time"));
    LengthOfStayErrors(admit, discharge);
    AdmitWeekdaySpec(admit);
  }

  /** Once the labs, flags and the two categorical fields are usable, the
      first error is that of the timestamps. */
  lemma TimestampErrorFirst(data: map<string, Json>, labs: seq<Lab>)
    requires forall i :: 0 <= i < |labs| ==> Get(data, labs[i].key).Number?
    requires forall i :: 0 <= i < |labs| ==> Get(data, labs[i].flagKey).Str?
    requires Get(data, "admission_type").Str? && Get(data, "discharge_location").Str?
    ensures var admit, discharge := ParseTimestamp(AsString(Get(data, "admit_time"))),
                                    ParseTimestamp(AsString(Get(data, "discharge_time")));
            FirstError(data, labs) == if admit.Failure? then Some(admit.error)
                                      else if discharge.Failure? then Some(discharge.error)
                                      else None
  {
  }

  /** Two requests that agree on every field the handler reads, except
      possibly the two misspelt labs, which both send as numbers. */
  predicate AgreeBeyondMisspelt(data: map<string, Json>, other: map<string, Json>) {
    && (forall i :: 0 <= i < 10 && i != 2 && i != 6 ==> Get(other, Labs[i].key) == Get(data, Labs[i].key))
    && Get(data, Labs[2].key).Number? && Get(other, Labs[2].key).Number?
    && Get(data, Labs[6].key).Number? && Get(other, Labs[6].key).Number?
    && (forall i :: 0 <= i < 10 ==> Get(other, Labs[i].flagKey) == Get(data, Labs[i].flagKey))
    && Get(other, "admission_type") == Get(data, "admission_type")
    && Get(other, "discharge_location") == Get(data, "discharge_location")
    && Get(other, "insurance") == Get(data, "insurance")
    && Get(other, "admit_time") == Get(data, "admit_time")
    && Get(other, "discharge_time") == Get(data, "discharge_time")
  }

  /** Such a request fails exactly where the first one does. */
  lemma AgreeingBuildSucceeds(data: map<string, Json>, other: map<string, Json>)
    requires AgreeBeyondMisspelt(data, other)
    ensures BuildFeatures(other).Success? <==> BuildFeatures(data).Success?
  {
    BuildFeaturesFailsAt(data);
    BuildFeaturesFailsAt(other);
    FirstErrorAgrees(data, other);
  }

  lemma FirstErrorAgrees(data: map<string, Json>, other: map<string, Json>)
    requires AgreeBeyondMisspelt(data, other)
    ensures FirstError(other, Labs) == FirstError(data, Labs)
  {
    assert forall i :: 0 <= i < |Labs| ==> (Get(other, Labs[i].key).Number? <==> Get(data, Labs[i].key).Number?);
    assert forall i :: 0 <= i < |Labs| ==> (Get(other, Labs[i].flagKey).Str? <==> Get(data, Labs[i].flagKey).Str?);
  }

  /** Flags read from fields that agree encode the same way. */
  lemma {:induction false} FlagValuesAgree(data: map<string, Json>, other: map<string, Json>, labs: seq<Lab>)
    requires forall i :: 0 <= i < |labs| ==> Get(other, labs[i].flagKey) == Get(data, labs[i].flagKey)
    ensures FlagValues(other, labs) == FlagValues(data, labs)
    decreases |labs|
  {
    if labs != [] {
      assert forall i :: 1 <= i < |labs| ==> labs[i] == labs[1..][i - 1];
      FlagValuesAgree(data, other, labs[1..]);
    }
  }

  /** The keys the lab values of urea nitrogen and C-reactive protein are
      stored under are not in the order. */
  lemma UreaKeyUnordered()
    ensures "urea_nitrogen" !in FeatureOrder
  {
  }

  lemma ReactiveProteinKeyUnordered()
    ensures "c_reactive_protein" !in FeatureOrder
  {
  }

  /** The result keys of the two labs whose names the order spells
      differently. */
  const MisspeltKeys: set<string> := {"urea_nitrogen", "c_reactive_protein"}

  /** Requests that agree on the labs outside a set of keys give lab values
      that agree outside those keys. */
  lemma {:induction false} LabValuesAgree(data: map<string, Json>, other: map<string, Json>, labs: seq<Lab>, skip: set<string>)
    requires forall i :: 0 <= i < |labs| && labs[i].key !in skip ==> Get(other, labs[i].key) == Get(data, labs[i].key)
    requires LabValues(data, labs).Success? && LabValues(other, labs).Success?
    ensures var p, q := LabValues(data, labs).value, LabValues(other, labs).value;
            p.Keys == q.Keys && forall k :: k in p && k !in skip ==> p[k] == q[k]
    decreases |labs|
  {
    if labs != [] {
      assert forall i :: 1 <= i < |labs| ==> labs[i] == labs[1..][i - 1];
      LabValuesAgree(data, other, labs[1..], skip);
    }
  }

  /** Two sets of parts, both with the key sets of the handler's tables, that
      differ at most in the values of the misspelt labs. */
  predicate PartsAgree(p: Parts, q: Parts) {
    && Keyed(p) && Keyed(q)
    && (forall k :: k in p.labs && k !in MisspeltKeys ==> k in q.labs && p.labs[k] == q.labs[k])
    && p.(labs := q.labs) == q
  }

  /** Two joins that differ at most in the values of the misspelt labs agree
      on every other key. */
  lemma JoinAgreesAt(p: Parts, q: Parts, k: string)
    requires PartsAgree(p, q)
    requires k !in MisspeltKeys
    ensures k in Join(p) <==> k in Join(q)
    ensures k in Join(p) ==> Join(p)[k] == Join(q)[k]
  {
    JoinLookup(p, k);
    JoinLookup(q, k);
  }

  /** ... and so agree at every position of the vector ... */
  lemma AssembledAgreeAt(p: Parts, q: Parts, k: int)
    requires PartsAgree(p, q)
    requires 0 <= k < 31
    ensures Assemble(Join(p))[k] == Assemble(Join(q))[k]
  {
    UreaKeyUnordered();
    ReactiveProteinKeyUnordered();
    assert FeatureOrder[k] in FeatureOrder;
    JoinAgreesAt(p, q, FeatureOrder[k]);
  }

  /** ... and so give the same vector. */
  lemma JoinsAgree(p: Parts, q: Parts)
    requires PartsAgree(p, q)
    ensures Assemble(Join(p)) == Assemble(Join(q))
  {
    forall k | 0 <= k < 31 ensures Assemble(Join(p))[k] == Assemble(Join(q))[k] {
      AssembledAgreeAt(p, q, k);
    }
  }

  /** The values sent for "urea_nitrogen" and "c_reactive_protein" never reach
      the classifier: a request that differs only in those two numbers is
      built the same way and gives the same vector. */
  lemma MisspeltLabsIgnored(data: map<string, Json>, other: map<string, Json>)
    requires AgreeBeyondMisspelt(data, other)
    ensures BuildFeatures(other).Success? <==> BuildFeatures(data).Success?
    ensures BuildFeatures(data).Success? ==>
              Assemble(BuildFeatures(other).value) == Assemble(BuildFeatures(data).value)
  {
    AgreeingBuildSucceeds(data, other);
    if BuildFeatures(data).Success? {
      var p, q := AgreeingParts(data, other);
      JoinsAgree(p, q);
    }
  }

  lemma AgreeingParts(data: map<string, Json>, other: map<string, Json>) returns (p: Parts, q: Parts)
    requires AgreeBeyondMisspelt(data, other)
    requires BuildFeatures(data).Success? && BuildFeatures(other).Success?
    ensures BuildFeatures(data).value == Join(p) && BuildFeatures(other).value == Join(q)
    ensures PartsAgree(p, q)
  {
    p := FeatureParts(data);
    q := FeatureParts(other);
    FlagValuesAgree(data, other, Labs);
    AgreeingLabs(data, other);
  }

  lemma AgreeingLabs(data: map<string, Json>, other: map<string, Json>)
    requires AgreeBeyondMisspelt(data, other)
    requires LabValues(data, Labs).Success? && LabValues(other, Labs).Success?
    ensures var p, q := LabValues(data, Labs).value, LabValues(other, Labs).value;
            p.Keys == q.Keys && forall k :: k in p && k !in MisspeltKeys ==> p[k] == q[k]
  {
    MisspeltLabsAre();
    LabValuesAgree(data, other, Labs, MisspeltKeys);
  }

  lemma MisspeltLabsAre()
    ensures Labs[2].key in MisspeltKeys && Labs[6].key in MisspeltKeys
  {
  }

  /** Replacing the two misspelt labs leaves every other field as it was. */
  lemma ReplacedAgrees(data: map<string, Json>, urea: real, crp: real)
    requires Get(data, "urea_nitrogen").Number? && Get(data, "c_reactive_protein").Number?
    ensures AgreeBeyondMisspelt(data, data["urea_nitrogen" := Number(urea)]["c_reactive_protein" := Number(crp)])
  {
    var other := data["urea_nitrogen" := Number(urea)]["c_reactive_protein" := Number(crp)];
    forall i | 0 <= i < 10 && i != 2 && i != 6 ensures Get(other, Labs[i].key) == Get(data, Labs[i].key) {
      assert |Labs[i].key| != 13 && |Labs[i].key| != 18;
    }
    forall i | 0 <= i < 10 ensures Get(other, Labs[i].flagKey) == Get(data, Labs[i].flagKey) {
      assert Labs[i].flagKey[|Labs[i].flagKey| - 1] == 'g';
    }
  }

  /** Replacing the two misspelt labs of a request that is built by any
      other numbers leaves the vector as it is. */
  lemma MisspeltLabsReplaced(data: map<string, Json>, urea: real, crp: real)
    requires BuildFeatures(data).Success?
    ensures var other := data["urea_nitrogen" := Number(urea)]["c_reactive_protein" := Number(crp)];
            BuildFeatures(other).Success?
            && Assemble(BuildFeatures(other).value) == Assemble(BuildFeatures(data).value)
  {
    var other := data["urea_nitrogen" := Number(urea)]["c_reactive_protein" := Number(crp)];
    BuildFeaturesFailsAt(data);
    assert Get(data, Labs[2].key).Number? && Get(data, Labs[6].key).Number?;
    ReplacedAgrees(data, urea, crp);
    MisspeltLabsIgnored(data, other);
  }
}
