/**
 The two integer helpers of the race server: `randomInt`, which draws the
 total race time, and `randomLegs`, which splits that time into the legs
 between consecutive stops.

 Randomness is a parameter. For `randomInt` the draw is the whole-number
 offset into the range; for `randomLegs` it is the list of weights, each a
 uniform draw shifted up by 0.2 and so in [0.2, 1.2). Weights are exact
 reals here, so each leg's share (its weight over the weight sum, times
 the total, rounded down) is computed without floating-point rounding.
 */
module Legs {
  import opened Common

  /** The lower bound plus an offset drawn below the size of the inclusive range. */
  function RandomInt(minInclusive: int, maxInclusive: int, offset: int): (r: int)
    requires 0 <= offset < maxInclusive - minInclusive + 1
    ensures minInclusive <= r <= maxInclusive
  {
    minInclusive + offset
  }

  /** Every value of the range is the draw of exactly one offset. */
  lemma RandomIntCovers(minInclusive: int, maxInclusive: int, v: int)
    requires minInclusive <= v <= maxInclusive
    ensures exists k :: 0 <= k < maxInclusive - minInclusive + 1 && RandomInt(minInclusive, maxInclusive, k) == v
  {
    assert RandomInt(minInclusive, maxInclusive, v - minInclusive) == v;
  }

  // ---------- weights and their floors ----------

  function SumR(ws: seq<real>): real {
    if ws == [] then 0.0 else ws[0] + SumR(ws[1..])
  }

  /** Each weight is a uniform draw in [0, 1) shifted up by 0.2. */
  predicate ValidWeights(ws: seq<real>) {
    forall i :: 0 <= i < |ws| ==> 0.2 <= ws[i] < 1.2
  }

  /** The exact share of `total` that weight `w` gets. */
  function Share(w: real, sum: real, total: int): real
    requires sum > 0.0
  {
    w / sum * total as real
  }

  /** Each weight's share of the total, rounded down. */
  function Floors(ws: seq<real>, sum: real, total: int): (raw: seq<int>)
    requires ws == [] || sum > 0.0
    ensures |raw| == |ws|
    ensures forall i :: 0 <= i < |ws| ==> raw[i] == Share(ws[i], sum, total).Floor
  {
    if ws == [] then [] else [Share(ws[0], sum, total).Floor] + Floors(ws[1..], sum, total)
  }

  /** Sum of the exact shares. */
  function SumShares(ws: seq<real>, sum: real, total: int): real
    requires sum > 0.0
  {
    if ws == [] then 0.0 else Share(ws[0], sum, total) + SumShares(ws[1..], sum, total)
  }

  lemma {:induction false} SumRBounds(ws: seq<real>)
    requires ValidWeights(ws)
    ensures 0.2 * (|ws| as real) <= SumR(ws)
    ensures ws != [] ==> SumR(ws) < 1.2 * (|ws| as real)
  {
    if ws != [] {
      assert ValidWeights(ws[1..]) by {
        forall i | 0 <= i < |ws[1..]| ensures 0.2 <= ws[1..][i] < 1.2 {
          assert ws[1..][i] == ws[i + 1];
        }
      }
      SumRBounds(ws[1..]);
    }
  }

  /** The shares add up to the weights' fraction of the total. */
  lemma {:induction false} SumSharesLinear(ws: seq<real>, sum: real, total: int)
    requires sum > 0.0
    ensures SumShares(ws, sum, total) == SumR(ws) / sum * total as real
  {
    if ws != [] {
      SumSharesLinear(ws[1..], sum, total);
      var t := total as real;
      calc {
        SumShares(ws, sum, total);
        ws[0] / sum * t + SumR(ws[1..]) / sum * t;
        { assert ws[0] / sum + SumR(ws[1..]) / sum == (ws[0] + SumR(ws[1..])) / sum; }
        (ws[0] + SumR(ws[1..])) / sum * t;
      }
    }
  }

  /** Flooring loses less than one unit per weight, and never gains. */
  lemma {:induction false} FloorsBounds(ws: seq<real>, sum: real, total: int)
    requires sum > 0.0
    ensures Sum(Floors(ws, sum, total)) as real <= SumShares(ws, sum, total)
    ensures ws != [] ==> SumShares(ws, sum, total) - (|ws| as real) < Sum(Floors(ws, sum, total)) as real
  {
    if ws != [] {
      FloorsBounds(ws[1..], sum, total);
      var s := Share(ws[0], sum, total);
      assert s.Floor as real <= s < s.Floor as real + 1.0;
      assert Floors(ws, sum, total) == [s.Floor] + Floors(ws[1..], sum, total);
    }
  }

  lemma ShareOfWhole(sum: real, total: int)
    requires sum > 0.0
    ensures sum / sum * total as real == total as real
  {
    assert sum / sum == 1.0;
  }

  lemma ShareNonNegative(w: real, sum: real, total: int)
    requires w >= 0.0 && sum > 0.0 && total >= 0
    ensures Share(w, sum, total).Floor >= 0
  {
    assert w / sum >= 0.0;
  }

  /**
   The under-allocation left by flooring: with positive weights,
   0 <= total - sum(raw) < legs, and no floor is negative.
   */
  lemma Shortfall(total: int, ws: seq<real>)
    requires ValidWeights(ws) && ws != [] && total >= 0
    ensures SumR(ws) > 0.0
    ensures 0 <= total - Sum(Floors(ws, SumR(ws), total)) < |ws|
    ensures forall i :: 0 <= i < |ws| ==> Floors(ws, SumR(ws), total)[i] >= 0
  {
    SumRBounds(ws);
    var sum := SumR(ws);
    var raw := Floors(ws, sum, total);
    FloorsBounds(ws, sum, total);
    SumSharesLinear(ws, sum, total);
    ShareOfWhole(sum, total);
    assert SumShares(ws, sum, total) == total as real;
    forall i | 0 <= i < |ws| ensures raw[i] >= 0 {
      ShareNonNegative(ws[i], sum, total);
    }
  }

  // ---------- the fine adjustment ----------

  /** One unit towards zero difference: up while legs are short, down otherwise. */
  function Step(diff: int): int {
    if diff > 0 then 1 else -1
  }

  /**
   The correction loop of `randomLegs`: walking the legs in order, move
   each by one towards the target until `diff` reaches zero. Only the
   first |diff| legs move, each by exactly one step in the sign of `diff`.
   */
  function Adjust(raw: seq<int>, diff: int): (legs: seq<int>)
    ensures |legs| == |raw|
    ensures forall i :: 0 <= i < |raw| ==> legs[i] == (if i < Abs(diff) then raw[i] + Step(diff) else raw[i])
  {
    if diff == 0 || raw == [] then raw
    else [raw[0] + Step(diff)] + Adjust(raw[1..], diff - Step(diff))
  }

  /** The adjustment moves the total by min(|diff|, legs) steps in diff's direction. */
  lemma {:induction false} AdjustSum(raw: seq<int>, diff: int)
    ensures Sum(Adjust(raw, diff)) == Sum(raw) + Step(diff) * Min(Abs(diff), |raw|)
  {
    if diff != 0 && raw != [] {
      var d := Step(diff);
      AdjustSum(raw[1..], diff - d);
      assert Adjust(raw, diff) == [raw[0] + d] + Adjust(raw[1..], diff - d);
      assert Adjust(raw, diff)[1..] == Adjust(raw[1..], diff - d);
      assert Abs(diff - d) == Abs(diff) - 1;
      if diff - d != 0 {
        assert Step(diff - d) == d;
      }
    }
  }

  /**
   For any floors that fall short of `total` by at most one per leg, the
   adjustment adds up to `total` exactly and keeps every leg non-negative.
   */
  lemma AdjustExact(raw: seq<int>, total: int)
    requires 0 <= total - Sum(raw) <= |raw|
    requires forall i :: 0 <= i < |raw| ==> raw[i] >= 0
    ensures var legs := Adjust(raw, total - Sum(raw));
      && Sum(legs) == total
      && forall i :: 0 <= i < |legs| ==> legs[i] >= 0
  {
    AdjustSum(raw, total - Sum(raw));
  }

  /** The legs `randomLegs` computes for the weights drawn at this launch. */
  function Partition(total: int, ws: seq<real>): (legs: seq<int>)
    requires ValidWeights(ws)
  {
    SumRBounds(ws);
    var raw := Floors(ws, SumR(ws), total);
    Adjust(raw, total - Sum(raw))
  }

  /**
   The exact-sum contract of the partition: `legs` entries, none negative,
   each at most one away from its floor, adding up to `total`.
   */
  lemma PartitionExact(total: int, ws: seq<real>)
    requires ValidWeights(ws) && ws != [] && total >= 0
    ensures SumR(ws) > 0.0
    ensures |Partition(total, ws)| == |ws|
    ensures Sum(Partition(total, ws)) == total
    ensures forall i :: 0 <= i < |ws| ==> Partition(total, ws)[i] >= 0
    ensures forall i :: 0 <= i < |ws| ==> 0 <= Partition(total, ws)[i] - Floors(ws, SumR(ws), total)[i] <= 1
  {
    Shortfall(total, ws);
    var raw := Floors(ws, SumR(ws), total);
    AdjustSum(raw, total - Sum(raw));
  }

  /**
   With enough time per leg (at least 6 ms per leg, far below the 10 s
   minimum), every leg is positive: the smallest weight still gets at
   least one millisecond.
   */
  lemma PartitionPositive(total: int, ws: seq<real>)
    requires ValidWeights(ws) && ws != [] && total >= 6 * |ws|
    ensures forall i :: 0 <= i < |ws| ==> Partition(total, ws)[i] >= 1
  {
    PartitionExact(total, ws);
    var sum := SumR(ws);
    SumRBounds(ws);
    forall i | 0 <= i < |ws| ensures Floors(ws, sum, total)[i] >= 1 {
      ShareAtLeastOne(ws[i], sum, total, |ws|);
    }
  }

  lemma ShareAtLeastOne(w: real, sum: real, total: int, n: nat)
    requires 0.2 <= w && 0.0 < sum < 1.2 * (n as real) && total >= 6 * n
    ensures Share(w, sum, total).Floor >= 1
  {
    var t := total as real;
    assert t >= 6.0 * (n as real);
    assert w * t >= 0.2 * t;
    assert w * t > sum;
    assert w / sum * t == (w * t) / sum;
    assert (w * t) / sum > 1.0;
  }

  /**
   `randomLegs` as the source writes it: floor the shares, then correct
   the shortfall.
   */
  method RandomLegs(total: int, ws: seq<real>) returns (legs: seq<int>)
    requires ValidWeights(ws)
    ensures legs == Partition(total, ws)
    ensures |legs| == |ws|
    ensures ws != [] && total >= 0 ==> Sum(legs) == total
  {
    SumRBounds(ws);
    var raw := Floors(ws, SumR(ws), total);
    legs := AdjustLoop(raw, total - Sum(raw));
    if ws != [] && total >= 0 {
      PartitionExact(total, ws);
    }
  }

  /**
   The correction loop: walk the legs once, moving each by one until the
   running difference is zero.
   */
  method AdjustLoop(raw: seq<int>, diff0: int) returns (legs: seq<int>)
    ensures legs == Adjust(raw, diff0)
  {
    var diff := diff0;
    legs := raw;
    var i := 0;
    while diff != 0 && i < |legs|
      invariant 0 <= i <= |legs| == |raw|
      invariant i <= Abs(diff0)
      invariant diff == diff0 - (if diff0 > 0 then i else -i)
      invariant forall k :: 0 <= k < |raw| ==> legs[k] == (if k < i then raw[k] + Step(diff0) else raw[k])
    {
      legs := legs[i := legs[i] + (if diff > 0 then 1 else -1)];
      diff := diff + (if diff > 0 then -1 else 1);
      i := i + 1;
    }
    var spec := Adjust(raw, diff0);
    assert forall k :: 0 <= k < |raw| ==> legs[k] == spec[k];
  }
}
