/** The ways the predict handler refuses a request, each with the message it
    sends back to the client (backend/app.py:113, 121, 124, 134, 157, 176). */
module Errors {
  import Decimal

  datatype PredictError =
    | MissingFields              // a request without `symptoms` or `severities`
    | NoSymptoms                 // an empty symptom list
    | LengthMismatch             // symptom and severity lists of different length
    | InvalidSymptomId(id: int)  // the first id outside [1, N]
    | InvalidSeverity(value: string)  // the first severity not in Mild/Moderate/Severe
    | PredictionFailed           // any exception raised while predicting

  const SymptomIdPrefix := "Invalid symptom ID: "
  const SeverityPrefix := "Invalid severity: "

  function Message(e: PredictError): string {
    match e
    case MissingFields => "Missing symptoms or severities"
    case NoSymptoms => "At least one symptom is required"
    case LengthMismatch => "Each symptom must have a severity"
    case InvalidSymptomId(id) => SymptomIdPrefix + Decimal.IntToString(id)
    case InvalidSeverity(value) => SeverityPrefix + value
    case PredictionFailed => "Prediction failed"
  }

  /** The message names the error: two errors with the same message are the
      same error, offending id or severity included. */
  lemma MessageInjective(e1: PredictError, e2: PredictError)
    ensures Message(e1) == Message(e2) ==> e1 == e2
  {
    var m1, m2 := Message(e1), Message(e2);
    if e1.InvalidSymptomId? && e2.InvalidSymptomId? {
      assert m1[|SymptomIdPrefix|..] == Decimal.IntToString(e1.id);
      assert m2[|SymptomIdPrefix|..] == Decimal.IntToString(e2.id);
      Decimal.IntToStringInjective(e1.id, e2.id);
    } else if e1.InvalidSeverity? && e2.InvalidSeverity? {
      assert m1[|SeverityPrefix|..] == e1.value;
      assert m2[|SeverityPrefix|..] == e2.value;
    } else if e1 != e2 {
      // different kinds: the first character tells them apart, except for
      // the two "Invalid s..." messages, which differ at index 9
      assert m1[0] != m2[0] || m1[9] != m2[9];
    }
  }
}
