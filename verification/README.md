# Symptom checker: the predict pipeline in Dafny

This project models the `POST /api/predict` handler of the AI symptom checker
backend (`backend/app.py`). A client submits a list of symptom ids with one
severity per symptom. The handler:

1. checks that both fields are present, that at least one symptom was given,
   and that the two lists have equal length;
2. encodes the ids as a 0/1 feature vector with one slot per known symptom
   (slot `sid - 1` for symptom `sid`), refusing the first id outside `[1, N]`;
3. runs the classifier on the vector, pairs every class label with its
   probability and picks the top prediction, the first label of maximal
   probability;
4. checks every severity against Mild / Moderate / Severe, refusing the first
   one that is not, and otherwise commits the patient record and one severity
   row per submitted symptom.

The handler is modelled as one pure function, `Handler.Predict(req, N,
labels, classify)`. `N` is the number of known symptoms, which the source
reads from the database. `labels` is the classifier's `classes_`.
`classify` is the classifier's `predict_proba` on one vector, an arbitrary
function that may also fail. The result is either the error, carrying the
message the client receives, or the predictions together with the record
that is committed. An error never carries a record, so a refused request
commits nothing.

Modules, in pipeline order:

- `Results`: `Option` and `Result` (usable with `:-`).
- `Decimal`: Python's `str(int)` for the id in "Invalid symptom ID: …", with
  its inverse parse.
- `Severities`: the three severity levels and the check on submitted strings.
- `Errors`: the six ways a request is refused, and their messages.
- `Encoder`: the feature vector.
- `Aggregator`: label/probability pairing and the first-maximum selection.
- `Handler`: the request, the committed record and the handler itself.
- `Scenarios`: worked requests against a 10-symptom catalogue.

Probabilities are reals, so the model compares them exactly. The tie-break
(first label in the classifier's order wins) is the one CPython's `max`
implements: it replaces its running best only by a strictly larger key.
Nothing in the service chose this tie-break on purpose.

Notes on the handler:

- An empty id list is refused at `backend/app.py:119`, before encoding. On
  its own, `Encoder.Encode([], N)` gives the all-zero vector.
- An invalid severity is answered at `backend/app.py:157` without an explicit
  rollback. The parent record was only flushed, never committed, so nothing
  persists; the model states this as "no record on error".
- A probability beyond the last label raises IndexError in the list
  comprehension at `backend/app.py:138-141`, and an empty answer makes `max`
  raise ValueError at `backend/app.py:142`. Both reach the catch-all at
  `backend/app.py:173-176` and become PredictionFailed. Fewer probabilities
  than labels is not an error: the extra labels are dropped.

## Model

| member | source | states |
|---|---|---|
| `Handler.Predict` | backend/app.py:110-165 | on success the committed top prediction is the label of a first-maximum entry of the returned predictions (argmax consistency), the record keeps the submitted ids, and the committed rows pair the i-th id with the i-th severity, one row per symptom |
| `Handler.SucceedsExactlyWhenValid` | backend/app.py:110-165 | a request succeeds if and only if both fields are present, the list is non-empty, the lengths agree, every id is in [1, N], the classifier answers on the indicator vector with between 1 and len(labels) probabilities, and every severity is accepted; the predictions then pair label i with probability i |
| `Handler.RejectsMissingFields` | backend/app.py:111-113 | a request without `symptoms` or `severities` is refused with MissingFields, whatever else it contains |
| `Handler.RejectsEmptySymptoms` | backend/app.py:119-121 | with both fields present, an empty symptom list is refused with NoSymptoms before the lengths are compared |
| `Handler.RejectsLengthMismatch` | backend/app.py:122-124 | a non-empty symptom list whose length differs from the severity list is refused with LengthMismatch before any id is examined |
| `Handler.RejectsFirstInvalidId` | backend/app.py:129-134 | for a well-formed request, the first id outside [1, N] in list order is the one reported, whatever the severities and the classifier |
| `Handler.ReportsPredictionFailure` | backend/app.py:137-142 | with all ids valid, a classifier that raises, answers nothing, or answers more probabilities than there are labels makes the request fail with PredictionFailed, before severities are checked |
| `Handler.RejectsFirstInvalidSeverity` | backend/app.py:154-157 | once the prediction succeeded, the first severity in zip order outside Mild/Moderate/Severe is reported and nothing is committed |
| `Handler.SeverityRows` | backend/app.py:154-163 | the zip loop succeeds exactly when every zipped severity is accepted; its rows then have the zipped length, row i carries id i and a severity spelled as severity i; otherwise the error names the first refused severity |
| `Encoder.Encode` | backend/app.py:127-134 | the vector exists exactly when every id is in [1, N] and is then the indicator vector of the ids; otherwise the error is InvalidSymptomId of the first id out of range |
| `Encoder.SetSlotsSpec` | backend/app.py:129-134 | the id loop, started on any vector, succeeds exactly when all ids are in range, then sets exactly the submitted slots to 1 and leaves the others alone, and otherwise stops at the first id out of range |
| `Encoder.FirstOutOfRangeExists` | backend/app.py:129-134 | some id is out of range exactly when there is a first such id in list order |
| `Encoder.EncodeShape` | backend/app.py:127-131 | a successful encoding has length N, only 0/1 entries, and slot sid-1 is 1 exactly when sid was submitted |
| `Encoder.EncodeDependsOnlyOnIdSet` | backend/app.py:129-131 | duplicate ids and their order do not matter: id lists with the same set of ids encode alike |
| `Encoder.IndicatorOnes` | backend/app.py:128-131 | the number of 1s in the indicator vector of length n is the number of distinct submitted ids in [1, n] |
| `Encoder.EncodeCountsDistinctIds` | backend/app.py:128-131 | a successful encoding has exactly as many 1s as there are distinct submitted ids |
| `Aggregator.Pair` | backend/app.py:137-141 | pairing succeeds exactly when no probability lacks a label; the predictions' probabilities are then the classifier's answer and their conditions the leading labels, in order; otherwise the request fails with PredictionFailed |
| `Aggregator.MaxFrom` | backend/app.py:142 | the left-to-right scan that replaces its best entry only by a strictly larger one ends on the first maximum of the whole list, given the first maximum of the prefix scanned so far |
| `Aggregator.TopIndex` | backend/app.py:142 | the selected entry has a probability no smaller than any entry, and strictly larger than every entry before it |
| `Aggregator.FirstMaxUnique` | backend/app.py:142 | there is only one first maximum, so the tie-break selects a single entry |
| `Aggregator.TopPrediction` | backend/app.py:142 | the top prediction exists exactly when there is at least one prediction, and is then the condition of the first maximum; an empty list fails with PredictionFailed |
| `Aggregator.TopPredictionIsFirstArgmax` | backend/app.py:142 | the label at any first maximum is the top prediction |
| `Severities.Parse` | backend/app.py:155 | a submitted severity is accepted exactly when it is one of "Mild", "Moderate", "Severe", and the level read is spelled as submitted |
| `Severities.ParseName` | backend/app.py:155 | every level's spelling is accepted and reads back as that level |
| `Errors.MessageInjective` | backend/app.py:111-176 | distinct errors have distinct messages, so the message identifies the offending id or severity |
| `Decimal.NatToString` | backend/app.py:134 | the decimal spelling of a natural number is non-empty, all digits, and starts with 0 only for zero |
| `Decimal.NatRoundTrip` | backend/app.py:134 | reading back the decimal spelling of a natural number gives the number |
| `Decimal.IntRoundTrip` | backend/app.py:134 | parsing `str(sid)` gives back sid, for negative ids too |
| `Decimal.IntToStringInjective` | backend/app.py:134 | distinct ids are spelled differently in the message |
| `Scenarios.ThreeSymptomRequest` | backend/app.py:127-165 | ids 1, 2, 9 against 10 symptoms set slots 0, 1 and 8 only, and the request commits three severity rows |
| `Scenarios.EmptyRequest` | backend/app.py:119-121 | empty lists are refused with "At least one symptom is required" |
| `Scenarios.MismatchedRequest` | backend/app.py:122-124 | two symptoms with one severity are refused with "Each symptom must have a severity" |
| `Scenarios.OutOfRangeRequest` | backend/app.py:129-134 | ids 3, 11, 0 against 10 symptoms are refused with "Invalid symptom ID: 11" |

## Left out

- HTTP routing, CORS, JSON parsing and status codes. The outcome is a
  `Result`; the messages are modelled, the 400/500 codes are not.
- The database: the symptom catalogue is reduced to its size `N`
  (`Symptom.query.count()`). Seeding, flush/commit/rollback, generated record
  ids and the analytics query (`backend/app.py:35-89`, `178-191`) are not
  modelled. A failure while writing rows, which the catch-all turns into
  PredictionFailed, is not modelled either.
- Fernet encryption of the symptom list (`backend/app.py:31-32`, `145`). The
  record keeps the submitted ids in the clear, so decrypting the stored list
  is not modelled.
- The record's server-side timestamp and its formatting in the response
  (`backend/app.py:53`, `170`), and all logging.
- The classifier's internals and model loading (`joblib`, scikit-learn). The
  classifier is an arbitrary function that may fail.
- Floating point: probabilities are reals, so NaN and rounding are not
  modelled, and the model makes no claim that they lie in [0, 1].
- JSON values other than integer ids and string severities. The model's ids
  are integers, so three behaviours of the source are not modelled: an
  in-range float id (such as `1.5`) passes the range test at
  `backend/app.py:130` and raises IndexError, reaching the catch-all; an
  out-of-range float id (such as `11.5`) fails that test and is refused at
  `backend/app.py:134` with "Invalid symptom ID: 11.5"; and a JSON `true`
  counts as id 1 (Python's bool is an int) and sets slot 0. A string id or a
  `null` list raises TypeError and reaches the catch-all.
- The other routes (`/api/`, `/api/symptoms`, `/api/analytics`),
  `backend/train_model.py` and `backend/models.py`. They hold no
  request-validation or prediction logic.
