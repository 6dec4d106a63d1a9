/** The predict handler of backend/app.py:107-176 as a pure function of the
    request, the number N of known symptoms, the classifier's class labels and
    the classifier itself. The outcome is either the error the client is told
    about, or the predictions returned together with the record the handler
    commits. An error never carries a record: nothing is committed for it. */
module Handler {
  import opened Results
  import opened Errors
  import opened Severities
  import opened Encoder
  import opened Aggregator

  /** The JSON body of the request; either field may be missing. */
  datatype Request = Request(symptoms: Option<seq<int>>, severities: Option<seq<string>>)

  /** One `patient_symptom_mapping` row: a submitted symptom and its severity. */
  datatype SeverityRow = SeverityRow(symptomId: int, severity: Severity)

  /** What a successful request commits: the patient record (its submitted
      symptom list, kept here in the clear, and its top prediction) and one
      severity row per submitted symptom. */
  datatype Record = Record(symptoms: seq<int>, prediction: string, rows: seq<SeverityRow>)

  /** The response body (without its timestamp) and the committed record. */
  datatype Response = Response(predictions: seq<Prediction>, record: Record)

  /** `model.predict_proba` on one input vector: one probability per class, or
      None when the call raises. */
  type Classifier = seq<int> -> Option<seq<real>>

  function Min(a: nat, b: nat): nat {
    if a <= b then a else b
  }

  /** Position k of the zipped lists holds the first severity that is not an
      accepted spelling. */
  predicate IsFirstInvalidSeverity(ids: seq<int>, sevs: seq<string>, k: int) {
    && 0 <= k < Min(|ids|, |sevs|)
    && sevs[k] !in Accepted
    && forall j :: 0 <= j < k ==> sevs[j] in Accepted
  }

  /** The loop over `zip(symptom_ids, severities)` (backend/app.py:154-163):
      it yields a row per pair, pairing ids and severities position by
      position, unless some severity in the zipped range is not accepted, in
      which case the first such severity is reported. */
  function SeverityRows(ids: seq<int>, sevs: seq<string>): (r: Result<seq<SeverityRow>, PredictError>)
    ensures r.Ok? <==> forall i :: 0 <= i < Min(|ids|, |sevs|) ==> sevs[i] in Accepted
    ensures r.Ok? ==> |r.value| == Min(|ids|, |sevs|)
    ensures r.Ok? ==> forall i :: 0 <= i < |r.value| ==>
                        r.value[i].symptomId == ids[i] && Name(r.value[i].severity) == sevs[i]
    ensures r.Err? ==> exists k :: IsFirstInvalidSeverity(ids, sevs, k) && r.error == InvalidSeverity(sevs[k])
    decreases |ids|
  {
    if |ids| == 0 || |sevs| == 0 then Ok([])
    else match Parse(sevs[0])
      case None =>
        assert IsFirstInvalidSeverity(ids, sevs, 0);
        Err(InvalidSeverity(sevs[0]))
      case Some(s) =>
        var r := SeverityRows(ids[1..], sevs[1..]);
        if r.Err? then
          var k :| IsFirstInvalidSeverity(ids[1..], sevs[1..], k) && r.error == InvalidSeverity(sevs[1..][k]);
          assert IsFirstInvalidSeverity(ids, sevs, k + 1);
          Err(r.error)
        else
          Ok([SeverityRow(ids[0], s)] + r.value)
  }

  /** The handler: field checks, then encoding, then prediction, then the
      severity check, each stage stopping the request at its first error. On
      success the top prediction agrees with the predictions returned, and
      the committed rows pair each submitted id with its severity. */
  function Predict(req: Request, n: nat, labels: seq<string>, classify: Classifier): (r: Result<Response, PredictError>)
    ensures r.Ok? ==> exists k :: IsFirstMax(r.value.predictions, k)
                        && r.value.record.prediction == r.value.predictions[k].condition
    ensures r.Ok? ==> req.symptoms.Some? && r.value.record.symptoms == req.symptoms.value
    ensures r.Ok? ==> req.severities.Some?
                        && |r.value.record.rows| == |req.symptoms.value| == |req.severities.value|
    ensures r.Ok? ==> forall i :: 0 <= i < |r.value.record.rows| ==>
                        r.value.record.rows[i].symptomId == req.symptoms.value[i]
                        && Name(r.value.record.rows[i].severity) == req.severities.value[i]
  {
    if req.symptoms.None? || req.severities.None? then Err(MissingFields)
    else
      var ids, sevs := req.symptoms.value, req.severities.value;
      if |ids| == 0 then Err(NoSymptoms)
      else if |ids| != |sevs| then Err(LengthMismatch)
      else
        var vector :- Encode(ids, n);
        // an exception raised by the classifier becomes a failed prediction
        var probs :- classify(vector).ToResult(PredictionFailed);
        var predictions :- Pair(labels, probs);
        var top :- TopPrediction(predictions);
        var rows :- SeverityRows(ids, sevs);
        Ok(Response(predictions, Record(ids, top, rows)))
  }

  /** The fields checks of backend/app.py:119-124 pass. */
  predicate WellFormed(req: Request) {
    && req.symptoms.Some? && req.severities.Some?
    && |req.symptoms.value| > 0
    && |req.symptoms.value| == |req.severities.value|
  }

  /** A request missing either field is refused for that, whatever else is
      wrong with it. */
  lemma RejectsMissingFields(req: Request, n: nat, labels: seq<string>, classify: Classifier)
    requires req.symptoms.None? || req.severities.None?
    ensures Predict(req, n, labels, classify) == Err(MissingFields)
  {
  }

  /** An empty symptom list is refused before the lengths are compared. */
  lemma RejectsEmptySymptoms(req: Request, n: nat, labels: seq<string>, classify: Classifier)
    requires req.symptoms.Some? && req.severities.Some?
    requires |req.symptoms.value| == 0
    ensures Predict(req, n, labels, classify) == Err(NoSymptoms)
  {
  }

  /** Lists of different lengths are refused before any id is looked at. */
  lemma RejectsLengthMismatch(req: Request, n: nat, labels: seq<string>, classify: Classifier)
    requires req.symptoms.Some? && req.severities.Some?
    requires |req.symptoms.value| > 0
    requires |req.symptoms.value| != |req.severities.value|
    ensures Predict(req, n, labels, classify) == Err(LengthMismatch)
  {
  }

  /** The first id outside [1, N] is reported, whatever the severities and
      the classifier: id errors come before prediction and severity errors. */
  lemma RejectsFirstInvalidId(req: Request, n: nat, labels: seq<string>, classify: Classifier, k: int)
    requires WellFormed(req)
    requires IsFirstOutOfRange(req.symptoms.value, n, k)
    ensures Predict(req, n, labels, classify) == Err(InvalidSymptomId(req.symptoms.value[k]))
  {
  }

  /** With every id in range, the classifier sees exactly the indicator
      vector of the ids; if it raises, returns no probability, or more
      probabilities than labels, the prediction fails before any severity is
      looked at. */
  lemma ReportsPredictionFailure(req: Request, n: nat, labels: seq<string>, classify: Classifier)
    requires WellFormed(req)
    requires AllInRange(req.symptoms.value, n)
    requires var out := classify(Indicator(req.symptoms.value, n));
             out.None? || |out.value| == 0 || |out.value| > |labels|
    ensures Predict(req, n, labels, classify) == Err(PredictionFailed)
  {
  }

  /** Once the prediction has been made, the first severity that is not
      Mild, Moderate or Severe is reported, and nothing is committed. */
  lemma RejectsFirstInvalidSeverity(req: Request, n: nat, labels: seq<string>, classify: Classifier, k: int)
    requires WellFormed(req)
    requires AllInRange(req.symptoms.value, n)
    requires var out := classify(Indicator(req.symptoms.value, n));
             out.Some? && 0 < |out.value| <= |labels|
    requires IsFirstInvalidSeverity(req.symptoms.value, req.severities.value, k)
    ensures Predict(req, n, labels, classify) == Err(InvalidSeverity(req.severities.value[k]))
  {
  }

  /** Exactly the well-formed requests with ids in range, a classifier
      answer that fits the labels, and accepted severities succeed; the
      predictions then pair label i with the classifier's probability i for
      the indicator vector of the ids. */
  lemma SucceedsExactlyWhenValid(req: Request, n: nat, labels: seq<string>, classify: Classifier)
    ensures Predict(req, n, labels, classify).Ok? <==>
              && WellFormed(req)
              && AllInRange(req.symptoms.value, n)
              && classify(Indicator(req.symptoms.value, n)).Some?
              && 0 < |classify(Indicator(req.symptoms.value, n)).value| <= |labels|
              && forall i :: 0 <= i < |req.severities.value| ==> req.severities.value[i] in Accepted
    ensures Predict(req, n, labels, classify).Ok? ==>
              var probs := classify(Indicator(req.symptoms.value, n)).value;
              var ps := Predict(req, n, labels, classify).value.predictions;
              && |ps| == |probs|
              && forall i :: 0 <= i < |ps| ==> ps[i] == Prediction(labels[i], probs[i])
  {
  }
}
