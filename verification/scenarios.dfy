/** Worked requests against a 10-symptom catalogue. */
module Scenarios {
  import opened Results
  import opened Errors
  import opened Encoder
  import opened Aggregator
  import opened Handler

  /** Symptoms 1, 2 and 9 set slots 0, 1 and 8, and the request is committed
      with three severity rows whenever the classifier answers sensibly. */
  lemma ThreeSymptomRequest(labels: seq<string>, classify: Classifier)
    requires var out := classify([1, 1, 0, 0, 0, 0, 0, 0, 1, 0]);
             out.Some? && 0 < |out.value| <= |labels|
    ensures Encode([1, 2, 9], 10) == Ok([1, 1, 0, 0, 0, 0, 0, 0, 1, 0])
    ensures var r := Predict(Request(Some([1, 2, 9]), Some(["Mild", "Severe", "Moderate"])), 10, labels, classify);
            r.Ok? && |r.value.predictions| > 0 && |r.value.record.rows| == 3
  {
    var ids := [1, 2, 9];
    assert Indicator(ids, 10) == [1, 1, 0, 0, 0, 0, 0, 0, 1, 0];
    SucceedsExactlyWhenValid(Request(Some(ids), Some(["Mild", "Severe", "Moderate"])), 10, labels, classify);
  }

  /** An empty request is refused with "At least one symptom is required". */
  lemma EmptyRequest(n: nat, labels: seq<string>, classify: Classifier)
    ensures var r := Predict(Request(Some([]), Some([])), n, labels, classify);
            r.Err? && Message(r.error) == "At least one symptom is required"
  {
  }

  /** Two symptoms with one severity are refused with the mismatch message. */
  lemma MismatchedRequest(n: nat, labels: seq<string>, classify: Classifier)
    ensures var r := Predict(Request(Some([1, 2]), Some(["Mild"])), n, labels, classify);
            r.Err? && Message(r.error) == "Each symptom must have a severity"
  {
  }

  /** Id 11 against 10 known symptoms is named in the message. */
  lemma OutOfRangeRequest(labels: seq<string>, classify: Classifier)
    ensures var r := Predict(Request(Some([3, 11, 0]), Some(["Mild", "Mild", "Oops"])), 10, labels, classify);
            r == Err(InvalidSymptomId(11)) && Message(r.error) == "Invalid symptom ID: 11"
  {
  }
}
