/**
 * The /predict handler: build the feature map, hand its 31-entry vector to the
 * classifier, store the record with its outcome, and answer with the label,
 * the probability, or the error.
 */
module Service {
  import opened Wrappers
  import opened Features
  import opened Encoders

  /** The prediction collection: the records inserted so far, in order. */
  class PredictionLog {
    var records: seq<map<string, Value>>

    constructor ()
      ensures records == []
    {
      records := [];
    }

    /** insert_one(record) */
    method InsertOne(record: map<string, Value>)
      modifies this
      ensures records == old(records) + [record]
    {
      records := records + [record];
    }
  }

  /** The three answers of the handler. */
  datatype Response =
    | Prediction(prediction: int, probability: real, message: string)
    | NoData
    | ServerError(error: Error)

  /** The HTTP status of each answer. */
  function Status(r: Response): (code: int)
    ensures code == 200 <==> r.Prediction?
    ensures code == 400 <==> r.NoData?
    ensures code == 500 <==> r.ServerError?
  {
    match r
    case Prediction(_, _, _) => 200
    case NoData => 400
    case ServerError(_) => 500
  }

  /** A request value copied into the record as it came. */
  function Copied(v: Json): (r: Value)
    ensures v.Number? <==> r.Num?
    ensures v.Str? <==> r.Text?
    ensures v.Null? <==> r.Nothing?
  {
    match v
    case Number(n) => Num(n)
    case Str(s) => Text(s)
    case Null => Nothing
  }

  /** The request fields the result dict copies as they came. */
  const CopiedKeys: set<string> :=
    {"patient_id", "patient_name", "insurance", "admission_type", "discharge_location",
     "admit_time", "discharge_time"}

  /** The keys the handler adds to the feature map in its result dict. */
  const RequestFieldKeys: set<string> := CopiedKeys + {"timestamp"}
  const OutcomeKeys: set<string> := {"prediction_result", "readmission_probability"}

  /** The copied request fields, and the time the result was built. */
  function RequestFields(data: map<string, Json>, now: string): (m: map<string, Value>)
    ensures m.Keys == RequestFieldKeys
  {
    (map k | k in CopiedKeys :: Copied(Get(data, k))) + map["timestamp" := Text(now)]
  }

  /** The entries result.update adds after the classifier ran. */
  function Outcome(prediction: int, probability: real): (m: map<string, Value>)
    ensures m.Keys == OutcomeKeys
  {
    map["prediction_result" := Text(if prediction == 1 then "Yes" else "No"),
        "readmission_probability" := Num(probability)]
  }

  /** The record stored for a request whose features were built. */
  function StoredRecord(features: map<string, Value>, data: map<string, Json>, now: string,
                        prediction: int, probability: real): map<string, Value>
  {
    features + RequestFields(data, now) + Outcome(prediction, probability)
  }

  /** The classifier's input for a numeric feature map. */
  function FeatureVector(features: map<string, Value>): (x: seq<real>)
    requires IsNumeric(features)
    ensures |x| == 31
  {
    AssembleOfNumeric(features);
    AsFloats(Assemble(features))
  }

  /** The array the handler gives the classifier for a request it could build. */
  function ModelInput(data: map<string, Json>): (x: seq<real>)
    requires BuildFeatures(data).Success?
    ensures |x| == 31
  {
    BuiltIsNumeric(data);
    FeatureVector(BuildFeatures(data).value)
  }

  /** The handler. The classifier's two calls are parameters, classifierAccepts
      says whether they return or raise, and storeAccepts says whether the
      database takes the insert or raises. */
  method Predict(log: PredictionLog, data: map<string, Json>,
                 classify: seq<real> -> int, probabilityOf: seq<real> -> real,
                 classifierAccepts: bool, storeAccepts: bool, now: string)
    returns (resp: Response)
    modifies log
    ensures data == map[] ==> resp == NoData && log.records == old(log.records)
    ensures data != map[] && BuildFeatures(data).Failure? ==>
              resp == ServerError(BuildFeatures(data).error) && log.records == old(log.records)
    ensures data != map[] && BuildFeatures(data).Success? ==>
              var features := BuildFeatures(data).value;
              var x := ModelInput(data);
              if !classifierAccepts then
                resp == ServerError(ClassifierFailed) && log.records == old(log.records)
              else if storeAccepts then
                && resp == Prediction(classify(x), probabilityOf(x), "Prediction successful")
                && log.records == old(log.records)
                     + [StoredRecord(features, data, now, classify(x), probabilityOf(x))]
              else
                resp == ServerError(StoreWriteFailed) && log.records == old(log.records)
  {
    if data == map[] {
      return NoData;
    }
    var built := BuildFeatures(data);
    if built.Failure? {
      return ServerError(built.error);
    }
    var result := built.value + RequestFields(data, now);
    BuiltIsNumeric(data);
    RequestFieldsOutsideOrder();
    AssembleIgnoresOtherKeys(built.value, RequestFields(data, now));
    AssembleOfNumeric(built.value);
    var x := AsFloats(Assemble(result));
    if !classifierAccepts {
      return ServerError(ClassifierFailed);
    }
    var prediction := classify(x);
    var probability := probabilityOf(x);
    result := result + Outcome(prediction, probability);
    if !storeAccepts {
      return ServerError(StoreWriteFailed);
    }
    log.InsertOne(result);
    return Prediction(prediction, probability, "Prediction successful");
  }

  /** No copied field and no outcome entry is a column of the vector. */
  lemma RequestFieldsOutsideOrder()
    ensures forall k :: k in RequestFieldKeys ==> k !in FeatureOrder
    ensures forall k :: k in OutcomeKeys ==> k !in FeatureOrder
  {
    forall k | k in RequestFieldKeys ensures k !in FeatureOrder {
      if k == "patient_id" || k == "patient_name" {
        PatientFieldsAreNoColumns(k);
      } else if k == "insurance" || k == "admission_type" {
        CodedFieldsAreNoColumns(k);
      } else if k == "discharge_location" || k == "admit_time" {
        StayFieldsAreNoColumns(k);
      } else {
        LaterFieldsAreNoColumns(k);
      }
    }
    forall k | k in OutcomeKeys ensures k !in FeatureOrder {
      OutcomeIsNoColumn(k);
    }
  }

  lemma PatientFieldsAreNoColumns(name: string)
    requires name == "patient_id" || name == "patient_name"
    ensures name !in FeatureOrder
  {
  }

  lemma CodedFieldsAreNoColumns(name: string)
    requires name == "insurance" || name == "admission_type"
    ensures name !in FeatureOrder
  {
  }

  lemma StayFieldsAreNoColumns(name: string)
    requires name == "discharge_location" || name == "admit_time"
    ensures name !in FeatureOrder
  {
  }

  lemma LaterFieldsAreNoColumns(name: string)
    requires name == "discharge_time" || name == "timestamp"
    ensures name !in FeatureOrder
  {
  }

  lemma OutcomeIsNoColumn(name: string)
    requires name == "prediction_result" || name == "readmission_probability"
    ensures name !in FeatureOrder
  {
  }

  /** The stored record reproduces the classifier's input: the copied fields
      and the outcome are not columns of the vector. */
  lemma StoredVectorIsInput(features: map<string, Value>, data: map<string, Json>, now: string,
                            prediction: int, probability: real)
    requires IsNumeric(features)
    ensures var record := StoredRecord(features, data, now, prediction, probability);
            Assemble(record) == Assemble(features)
            && AsFloats(Assemble(record)) == FeatureVector(features)
  {
    RequestFieldsOutsideOrder();
    AssembleIgnoresOtherKeys(features, RequestFields(data, now));
    AssembleIgnoresOtherKeys(features + RequestFields(data, now), Outcome(prediction, probability));
    AssembleOfNumeric(features);
  }

  /** The stored record holds every feature unchanged when no added field
      shares its key. */
  lemma StoredRecordKeepsFeatures(features: map<string, Value>, data: map<string, Json>, now: string,
                                  prediction: int, probability: real)
    requires features.Keys !! (RequestFieldKeys + OutcomeKeys)
    ensures var record := StoredRecord(features, data, now, prediction, probability);
            && record.Keys == features.Keys + RequestFieldKeys + OutcomeKeys
            && (forall k :: k in features ==> record[k] == features[k])
  {
  }

  /** The stored record holds the request fields as they came and the time
      the result was built. */
  lemma StoredRecordFields(features: map<string, Value>, data: map<string, Json>, now: string,
                           prediction: int, probability: real)
    ensures var record := StoredRecord(features, data, now, prediction, probability);
            && (forall k :: k in CopiedKeys ==> record[k] == Copied(Get(data, k)))
            && record["timestamp"] == Text(now)
  {
    var record := StoredRecord(features, data, now, prediction, probability);
    FieldsApartFromOutcome();
    forall k | k in RequestFieldKeys ensures record[k] == RequestFields(data, now)[k] {
    }
  }

  lemma FieldsApartFromOutcome()
    ensures RequestFieldKeys !! OutcomeKeys
  {
  }

  /** The stored outcome: label 1 reads "Yes", any other label "No", and the
      probability is stored as it came. */
  lemma StoredOutcome(features: map<string, Value>, data: map<string, Json>, now: string,
                      prediction: int, probability: real)
    ensures var record := StoredRecord(features, data, now, prediction, probability);
            && (record["prediction_result"] == Text("Yes") <==> prediction == 1)
            && (record["prediction_result"] == Text("No") <==> prediction != 1)
            && record["readmission_probability"] == Num(probability)
  {
  }

  /** The built feature map shares no key with the fields added to it, so the
      result dict loses none of its features. */
  lemma BuiltKeysApart(data: map<string, Json>)
    requires BuildFeatures(data).Success?
    ensures BuildFeatures(data).value.Keys !! (RequestFieldKeys + OutcomeKeys)
  {
    var p := FeatureParts(data);
    RequestFieldsOutsideOrder();
    forall k | k in BuildFeatures(data).value
      ensures k !in RequestFieldKeys + OutcomeKeys
    {
      JoinLookup(p, k);
      FeatureKeysInOrder(k);
      if k == Labs[2].key || k == Labs[6].key {
        MisspeltLabsAreNoFields(k);
      }
    }
  }

  /** Every feature key is a column of the vector, except the two lab keys
      whose column names are spelled differently. */
  lemma FeatureKeysInOrder(k: string)
    requires k in LabKeys() + FlagFeatureKeys() + AdmissionKeys + DischargeKeySet() + SummaryKeys
    ensures k in FeatureOrder || k == Labs[2].key || k == Labs[6].key
  {
    OrderMatchesKeys();
    if k in LabKeys() {
      var i :| 0 <= i < |Labs| && Labs[i].key == k;
      if i != 2 && i != 6 {
        assert FeatureOrder[2 * i] == k;
      }
    } else if k in FlagFeatureKeys() {
      var i :| 0 <= i < |Labs| && Labs[i].flagFeature == k;
      assert FeatureOrder[2 * i + 1] == k;
    } else if k in DischargeKeySet() {
      var j :| 0 <= j < 6 && DischargeKeys[j] == k;
      assert FeatureOrder[22 + j] == k;
    } else if k in AdmissionKeys {
      assert FeatureOrder[20] == EmergencyKey && FeatureOrder[21] == UrgentKey;
    } else {
      assert FeatureOrder[28] == "insurance_risk" && FeatureOrder[29] == "length_of_stay";
      assert FeatureOrder[30] == "admit_weekday";
    }
  }

  lemma MisspeltLabsAreNoFields(k: string)
    requires k == Labs[2].key || k == Labs[6].key
    ensures k !in RequestFieldKeys + OutcomeKeys
  {
  }
}
