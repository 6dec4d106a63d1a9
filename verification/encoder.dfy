/** The feature encoder of the predict handler (backend/app.py:127-134): the
    submitted symptom ids become a 0/1 vector with one slot per known symptom,
    slot `sid - 1` standing for symptom `sid`. The loop visits the ids in
    order and gives up at the first id outside [1, N]. */
module Encoder {
  import opened Results
  import opened Errors

  predicate InRange(sid: int, n: nat) {
    1 <= sid <= n
  }

  predicate AllInRange(ids: seq<int>, n: nat) {
    forall i :: 0 <= i < |ids| ==> InRange(ids[i], n)
  }

  /** Position k holds the first id, in list order, outside [1, n]. */
  predicate IsFirstOutOfRange(ids: seq<int>, n: nat, k: int) {
    && 0 <= k < |ids|
    && !InRange(ids[k], n)
    && forall j :: 0 <= j < k ==> InRange(ids[j], n)
  }

  /** The vector the handler starts from (`np.zeros(symptom_count)`). */
  function Zeros(n: nat): seq<int> {
    seq(n, _ => 0)
  }

  /** `v` with the slot of every id in `ids` set to 1 and the other slots
      left alone. */
  function Overlay(v: seq<int>, ids: seq<int>): seq<int> {
    seq(|v|, i requires 0 <= i < |v| => if i + 1 in ids then 1 else v[i])
  }

  /** Reference definition of a successful encoding: slot i is 1 exactly when
      symptom i + 1 was submitted, and 0 otherwise. */
  function Indicator(ids: seq<int>, n: nat): seq<int> {
    seq(n, i => if i + 1 in ids then 1 else 0)
  }

  /** The loop of backend/app.py:129-134, one id at a time. */
  function SetSlots(v: seq<int>, ids: seq<int>): Result<seq<int>, PredictError>
    decreases |ids|
  {
    if |ids| == 0 then Ok(v)
    else if InRange(ids[0], |v|) then SetSlots(v[ids[0] - 1 := 1], ids[1..])
    else Err(InvalidSymptomId(ids[0]))
  }

  lemma {:induction false} SetSlotsSpec(v: seq<int>, ids: seq<int>)
    ensures SetSlots(v, ids).Ok? <==> AllInRange(ids, |v|)
    ensures AllInRange(ids, |v|) ==> SetSlots(v, ids) == Ok(Overlay(v, ids))
    ensures forall k :: IsFirstOutOfRange(ids, |v|, k) ==> SetSlots(v, ids) == Err(InvalidSymptomId(ids[k]))
    decreases |ids|
  {
    if |ids| == 0 {
      assert Overlay(v, ids) == v;
    } else {
      var rest := ids[1..];
      assert ids == [ids[0]] + rest;
      if InRange(ids[0], |v|) {
        var v' := v[ids[0] - 1 := 1];
        SetSlotsSpec(v', rest);
        assert AllInRange(ids, |v|) <==> AllInRange(rest, |v|) by {
          if AllInRange(rest, |v|) {
            forall i | 0 <= i < |ids| ensures InRange(ids[i], |v|) {
              if i > 0 { assert ids[i] == rest[i - 1]; }
            }
          }
        }
        if AllInRange(ids, |v|) {
          assert Overlay(v', rest) == Overlay(v, ids);
        }
        forall k | IsFirstOutOfRange(ids, |v|, k)
          ensures SetSlots(v, ids) == Err(InvalidSymptomId(ids[k]))
        {
          assert k > 0;
          assert IsFirstOutOfRange(rest, |v'|, k - 1);
        }
      } else {
        assert !AllInRange(ids, |v|) by { assert !InRange(ids[0], |v|); }
        forall k | IsFirstOutOfRange(ids, |v|, k)
          ensures SetSlots(v, ids) == Err(InvalidSymptomId(ids[k]))
        {
        }
      }
    }
  }

  /** Some id is out of range exactly when there is a first one. */
  lemma {:induction false} FirstOutOfRangeExists(ids: seq<int>, n: nat)
    ensures !AllInRange(ids, n) <==> exists k :: IsFirstOutOfRange(ids, n, k)
    decreases |ids|
  {
    if !AllInRange(ids, n) {
      if InRange(ids[0], n) {
        var rest := ids[1..];
        assert !AllInRange(rest, n) by {
          var i :| 0 <= i < |ids| && !InRange(ids[i], n);
          assert rest[i - 1] == ids[i];
        }
        FirstOutOfRangeExists(rest, n);
        var k :| IsFirstOutOfRange(rest, n, k);
        assert IsFirstOutOfRange(ids, n, k + 1);
      } else {
        assert IsFirstOutOfRange(ids, n, 0);
      }
    }
  }

  /** `Encode(ids, N)`: the handler's input vector. It exists exactly when
      every id is in [1, N], and is then the indicator vector of the ids;
      otherwise the error names the first id, in list order, that is not. */
  function Encode(ids: seq<int>, n: nat): (r: Result<seq<int>, PredictError>)
    ensures r.Ok? <==> AllInRange(ids, n)
    ensures r.Ok? ==> r.value == Indicator(ids, n)
    ensures r.Err? ==> exists k :: IsFirstOutOfRange(ids, n, k) && r.error == InvalidSymptomId(ids[k])
  {
    SetSlotsSpec(Zeros(n), ids);
    FirstOutOfRangeExists(ids, n);
    assert Overlay(Zeros(n), ids) == Indicator(ids, n);
    SetSlots(Zeros(n), ids)
  }

  /** A successful encoding has length N, only 0/1 entries, and slot
      `sid - 1` is 1 exactly when `sid` was submitted. */
  lemma EncodeShape(ids: seq<int>, n: nat)
    requires AllInRange(ids, n)
    ensures Encode(ids, n).Ok?
    ensures |Encode(ids, n).value| == n
    ensures forall i :: 0 <= i < n ==> Encode(ids, n).value[i] in {0, 1}
    ensures forall sid :: 1 <= sid <= n ==> (Encode(ids, n).value[sid - 1] == 1 <==> sid in ids)
  {
  }

  /** Duplicates and order do not matter: two id lists naming the same set of
      symptoms encode to the same vector. */
  lemma EncodeDependsOnlyOnIdSet(ids1: seq<int>, ids2: seq<int>, n: nat)
    requires (set x | x in ids1) == (set x | x in ids2)
    ensures Encode(ids1, n) == Encode(ids2, n) || (Encode(ids1, n).Err? && Encode(ids2, n).Err?)
  {
    var s1, s2 := set x | x in ids1, set x | x in ids2;
    forall x ensures x in ids1 <==> x in ids2 {
      assert x in ids1 <==> x in s1;
      assert x in ids2 <==> x in s2;
    }
    assert AllInRange(ids1, n) <==> AllInRange(ids2, n) by {
      if AllInRange(ids1, n) {
        forall i | 0 <= i < |ids2| ensures InRange(ids2[i], n) {
          assert ids2[i] in ids1;
        }
      }
      if AllInRange(ids2, n) {
        forall i | 0 <= i < |ids1| ensures InRange(ids1[i], n) {
          assert ids1[i] in ids2;
        }
      }
    }
    assert Indicator(ids1, n) == Indicator(ids2, n);
  }

  /** Number of 1 entries in a vector. */
  function CountOnes(v: seq<int>): nat {
    if |v| == 0 then 0 else CountOnes(v[..|v| - 1]) + (if v[|v| - 1] == 1 then 1 else 0)
  }

  /** The submitted ids that fall in [1, n]. */
  function IdsUpTo(ids: seq<int>, n: nat): set<int> {
    set x | x in ids && 1 <= x <= n
  }

  lemma {:induction false} IndicatorOnes(ids: seq<int>, n: nat)
    ensures CountOnes(Indicator(ids, n)) == |IdsUpTo(ids, n)|
    decreases n
  {
    if n > 0 {
      var v := Indicator(ids, n);
      assert v[..n - 1] == Indicator(ids, n - 1);
      IndicatorOnes(ids, n - 1);
      if n in ids {
        assert IdsUpTo(ids, n) == IdsUpTo(ids, n - 1) + {n};
      } else {
        assert IdsUpTo(ids, n) == IdsUpTo(ids, n - 1);
      }
    }
  }

  /** The encoded vector has as many 1s as there are distinct submitted ids. */
  lemma EncodeCountsDistinctIds(ids: seq<int>, n: nat)
    requires AllInRange(ids, n)
    ensures CountOnes(Encode(ids, n).value) == |set x | x in ids|
  {
    IndicatorOnes(ids, n);
    assert IdsUpTo(ids, n) == set x | x in ids;
  }
}
