/** The prediction aggregator of the predict handler (backend/app.py:137-142):
    the classifier's probabilities are paired with its class labels, and the
    top prediction is the label of the first entry with the largest
    probability, the entry Python's `max(predictions, key=...)` returns. */
module Aggregator {
  import opened Results
  import opened Errors

  datatype Prediction = Prediction(condition: string, probability: real)

  function Conditions(ps: seq<Prediction>): (cs: seq<string>)
    ensures |cs| == |ps|
    ensures forall i :: 0 <= i < |ps| ==> cs[i] == ps[i].condition
  {
    if |ps| == 0 then [] else [ps[0].condition] + Conditions(ps[1..])
  }

  function Probabilities(ps: seq<Prediction>): (qs: seq<real>)
    ensures |qs| == |ps|
    ensures forall i :: 0 <= i < |ps| ==> qs[i] == ps[i].probability
  {
    if |ps| == 0 then [] else [ps[0].probability] + Probabilities(ps[1..])
  }

  /** The list comprehension over `enumerate(prediction_proba)`: entry i
      pairs `model.classes_[i]` with probability i. A probability without a
      label raises IndexError, which the handler reports as a failed
      prediction. */
  function Pair(labels: seq<string>, probs: seq<real>): (r: Result<seq<Prediction>, PredictError>)
    ensures r.Ok? <==> |probs| <= |labels|
    ensures r.Err? ==> r.error == PredictionFailed
    ensures r.Ok? ==> Probabilities(r.value) == probs && Conditions(r.value) == labels[..|probs|]
    decreases |probs|
  {
    if |probs| == 0 then Ok([])
    else if |labels| == 0 then Err(PredictionFailed)
    else
      var rest :- Pair(labels[1..], probs[1..]);
      assert labels[..|probs|] == [labels[0]] + labels[1..][..|probs| - 1];
      Ok([Prediction(labels[0], probs[0])] + rest)
  }

  /** Entry k has the largest probability, and every earlier entry a strictly
      smaller one: k is the first maximum. */
  ghost predicate IsFirstMax(ps: seq<Prediction>, k: int) {
    && 0 <= k < |ps|
    && (forall j :: 0 <= j < |ps| ==> ps[j].probability <= ps[k].probability)
    && (forall j :: 0 <= j < k ==> ps[j].probability < ps[k].probability)
  }

  /** CPython's `max` with a key: scan left to right, keeping the best entry
      so far and replacing it only by a strictly larger one. */
  function MaxFrom(ps: seq<Prediction>, best: nat, i: nat): (k: nat)
    requires best < i <= |ps|
    requires IsFirstMax(ps[..i], best)
    ensures IsFirstMax(ps, k)
    decreases |ps| - i
  {
    if i == |ps| then
      assert ps[..i] == ps;
      best
    else if ps[i].probability > ps[best].probability then
      assert ps[..i + 1][..i] == ps[..i];
      MaxFrom(ps, i, i + 1)
    else
      assert ps[..i + 1][..i] == ps[..i];
      MaxFrom(ps, best, i + 1)
  }

  /** Index of the top prediction; the list must not be empty. */
  function TopIndex(ps: seq<Prediction>): (k: nat)
    requires |ps| > 0
    ensures IsFirstMax(ps, k)
  {
    MaxFrom(ps, 0, 1)
  }

  /** The first maximum is unique, so the tie-break picks one entry. */
  lemma FirstMaxUnique(ps: seq<Prediction>, a: int, b: int)
    requires IsFirstMax(ps, a) && IsFirstMax(ps, b)
    ensures a == b
  {
    // each is at least as large as the other, so neither lies strictly before
    assert ps[a].probability == ps[b].probability;
  }

  /** `top_prediction`: the label of the first entry of maximal probability.
      `max` of an empty list raises ValueError, which the handler reports as a
      failed prediction. */
  function TopPrediction(ps: seq<Prediction>): (r: Result<string, PredictError>)
    ensures r.Ok? <==> |ps| > 0
    ensures r.Err? ==> r.error == PredictionFailed
    ensures r.Ok? ==> exists k :: IsFirstMax(ps, k) && r.value == ps[k].condition
  {
    if |ps| == 0 then Err(PredictionFailed) else Ok(ps[TopIndex(ps)].condition)
  }

  /** Conversely, whichever entry is a first maximum, its label is the one
      TopPrediction selects. */
  lemma TopPredictionIsFirstArgmax(ps: seq<Prediction>, k: int)
    requires IsFirstMax(ps, k)
    ensures TopPrediction(ps) == Ok(ps[k].condition)
  {
  }
}
