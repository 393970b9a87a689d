/** How far apart two runs of the YSF convolutional code are, and what that means for a damaged header. */
module MinimumDistance {
  import opened Trellis

  const NONE := Symbol(false, false)

  function Zeros(k: nat): seq<Symbol> { seq(k, _ => NONE) }

  /** The symbols a run sends. */
  function Encoded(w: seq<bool>): (r: seq<Symbol>)
    requires |w| >= 4
    ensures |r| == |w| - 4
  {
    seq(|w| - 4, t requires 0 <= t < |w| - 4 => Output(w, t))
  }

  function Difference(v: seq<bool>, w: seq<bool>): (d: seq<bool>)
    requires |v| == |w|
    ensures |d| == |v|
  {
    seq(|v|, i requires 0 <= i < |v| => Plus(v[i], w[i]))
  }

  /** The code is linear: two runs are as far apart as their difference is from silence. */
  lemma {:induction false} Linear(v: seq<bool>, w: seq<bool>)
    requires |v| == |w| >= 4
    ensures Distance(v, Encoded(w)) == Distance(Difference(v, w), Zeros(|w| - 4))
    decreases |w|
  {
    hide Output, Cost;
    if |w| > 4 {
      var k := |w| - 5;
      OutputAdds(v, w, k);
      Linear(v[..k + 4], w[..k + 4]);
      assert Difference(v, w)[..k + 4] == Difference(v[..k + 4], w[..k + 4]);
      EncodedPrefix(w, k);
      assert Zeros(k + 1)[..k] == Zeros(k);
    }
  }

  lemma EncodedPrefix(w: seq<bool>, k: nat)
    requires k + 4 <= |w|
    ensures Encoded(w)[..k] == Encoded(w[..k + 4])
  {
  }

  lemma OutputAdds(v: seq<bool>, w: seq<bool>, t: nat)
    requires |v| == |w| && t + 4 < |w|
    ensures Cost(Output(v, t), Output(w, t)) == Cost(Output(Difference(v, w), t), NONE)
  {
  }

  /** The triangle inequality between two runs and what was received. */
  lemma {:induction false} Triangle(v: seq<bool>, w: seq<bool>, received: seq<Symbol>)
    requires |v| == |w| == |received| + 4
    ensures Distance(v, Encoded(w)) <= Distance(v, received) + Distance(w, received)
    decreases |received|
  {
    if |received| > 0 {
      var k := |received| - 1;
      Triangle(v[..k + 4], w[..k + 4], received[..k]);
      EncodedPrefix(w, k);
    }
  }

  lemma {:induction false} DistanceGrows(w: seq<bool>, received: seq<Symbol>, k: nat)
    requires |w| == |received| + 4 && k <= |received|
    ensures Distance(w[..k + 4], received[..k]) <= Distance(w, received)
    decreases |received|
  {
    var n := |received| - 1;
    if k <= n {
      DistanceGrows(w[..n + 4], received[..n], k);
      assert w[..n + 4][..k + 4] == w[..k + 4] && received[..n][..k] == received[..k];
    } else {
      assert w[..k + 4] == w && received[..k] == received;
    }
  }

  lemma LastBitLeaves(d: seq<bool>, m: nat)
    requires m + 4 < |d| && d[m]
    requires forall j :: m < j < |d| ==> !d[j]
    ensures EndState(d[..m + 4]) == 8 && Cost(Output(d[..m + 5], m), NONE) == 2
  {
    var e := d[..m + 5];
    assert e[m] && !e[m + 1] && !e[m + 2] && !e[m + 3] && !e[m + 4];
    assert d[..m + 4] == e[..m + 4];
  }

  /** The weight of a run whose last set bit is m: the step that drops it sends two ones, on top of the lightest
      way to the state that holds only that bit. */
  lemma LastBitWeight(d: seq<bool>, m: nat)
    requires m + 4 < |d| && d[m]
    requires forall j :: m < j < |d| ==> !d[j]
    ensures Metrics(Zeros(m))[8] + 2 <= Distance(d, Zeros(|d| - 4))
  {
    hide EndState, Output, Cost, Metrics;
    var e := d[..m + 5];
    assert e[..m + 4] == d[..m + 4];
    LastBitLeaves(d, m);
    DistanceGrows(d, Zeros(|d| - 4), m + 1);
    assert Zeros(|d| - 4)[..m + 1] == Zeros(m + 1) && Zeros(m + 1)[..m] == Zeros(m);
    MetricIsLowerBound(Zeros(m), d[..m + 4]);
  }

  // ----- the metrics of silence reach a fixed point after thirteen steps ----------------------

  function Silence(metrics: seq<nat>): (r: seq<nat>)
    requires |metrics| == 16
    ensures |r| == 16
  {
    seq(16, s requires 0 <= s < 16 => NewMetric(metrics, s, NONE))
  }

  const SILENCE: seq<seq<nat>> := [
    [0, 0, 0, 0, 0, 0, 0, 0, 0, 0, 0, 0, 0, 0, 0, 0],
    [0, 0, 1, 1, 1, 1, 0, 0, 1, 1, 0, 0, 0, 0, 1, 1],
    [0, 1, 1, 1, 1, 1, 1, 0, 1, 1, 0, 1, 1, 0, 1, 1],
    [0, 1, 2, 2, 1, 1, 1, 1, 2, 2, 0, 1, 1, 1, 1, 1],
    [0, 2, 2, 2, 1, 1, 2, 1, 2, 2, 1, 1, 1, 1, 2, 2],
    [0, 2, 3, 3, 2, 2, 2, 1, 2, 2, 1, 1, 2, 2, 2, 2],
    [0, 2, 3, 3, 2, 2, 3, 1, 3, 3, 2, 2, 2, 2, 2, 2],
    [0, 2, 3, 3, 3, 3, 3, 2, 3, 3, 2, 2, 2, 3, 2, 2],
    [0, 2, 3, 3, 3, 3, 3, 2, 3, 3, 3, 3, 2, 3, 3, 3],
    [0, 2, 3, 3, 4, 4, 3, 3, 3, 3, 3, 3, 3, 3, 3, 3],
    [0, 2, 3, 3, 4, 4, 3, 3, 4, 4, 3, 4, 3, 3, 4, 4],
    [0, 2, 3, 3, 4, 4, 3, 4, 4, 4, 3, 4, 4, 3, 4, 4],
    [0, 2, 3, 3, 4, 4, 3, 4, 5, 5, 3, 4, 4, 3, 5, 5],
    [0, 2, 3, 3, 4, 4, 3, 4, 5, 5, 3, 4, 5, 3, 5, 5]
  ]

  function Min(a: nat, b: nat): nat { if a < b then a else b }

  /** The weight of the branch into each state from its lower predecessor; the other one has the rest of two. */
  const WEIGHTS: seq<nat> := [0, 2, 1, 1, 1, 1, 0, 2, 1, 1, 2, 0, 2, 0, 1, 1]

  lemma SilenceAt(metrics: seq<nat>, s: nat)
    requires |metrics| == 16 && s < 16
    ensures Silence(metrics)[s] == Min(metrics[s / 2] + WEIGHTS[s], metrics[s / 2 + 8] + 2 - WEIGHTS[s])
  {
    BranchWeights(s);
    hide BranchMetric, WEIGHTS;
  }

  lemma BranchWeights(s: nat)
    requires s < 16
    ensures WEIGHTS[s] == if s % 2 == 0 then BranchMetric(s / 2, NONE) else 2 - BranchMetric(s / 2, NONE)
  {
  }

  lemma SilenceExpanded(m: seq<nat>)
    requires |m| == 16
    ensures Silence(m) == [
      Min(m[0], m[8] + 2), Min(m[0] + 2, m[8]), Min(m[1] + 1, m[9] + 1), Min(m[1] + 1, m[9] + 1),
      Min(m[2] + 1, m[10] + 1), Min(m[2] + 1, m[10] + 1), Min(m[3], m[11] + 2), Min(m[3] + 2, m[11]),
      Min(m[4] + 1, m[12] + 1), Min(m[4] + 1, m[12] + 1), Min(m[5] + 2, m[13]), Min(m[5], m[13] + 2),
      Min(m[6] + 2, m[14]), Min(m[6], m[14] + 2), Min(m[7] + 1, m[15] + 1), Min(m[7] + 1, m[15] + 1)
    ]
  {
    hide Silence, Min;
    forall s | 0 <= s < 16
      ensures Silence(m)[s] == Min(m[s / 2] + WEIGHTS[s], m[s / 2 + 8] + 2 - WEIGHTS[s])
    {
      SilenceAt(m, s);
    }
  }

  lemma SilenceFollows(m: nat)
    requires m < |SILENCE|
    ensures Silence(SILENCE[m]) == SILENCE[if m < 13 then m + 1 else 13]
  {
    hide Silence, WEIGHTS;
    SilenceExpanded(SILENCE[m]);
    if
    case m == 0 =>
    case m == 1 =>
    case m == 2 =>
    case m == 3 =>
    case m == 4 =>
    case m == 5 =>
    case m == 6 =>
    case m == 7 =>
    case m == 8 =>
    case m == 9 =>
    case m == 10 =>
    case m == 11 =>
    case m == 12 =>
    case m == 13 =>
  }

  lemma {:induction false} MetricsOfSilence(m: nat)
    ensures Metrics(Zeros(m)) == SILENCE[if m < 13 then m else 13]
  {
    hide Silence, NewMetric;
    if m > 0 {
      MetricsOfSilence(m - 1);
      assert Zeros(m)[..m - 1] == Zeros(m - 1);
      assert Metrics(Zeros(m)) == Silence(Metrics(Zeros(m - 1))) by { SilenceStep(Zeros(m)); }
      SilenceFollows(if m <= 13 then m - 1 else 13);
    }
  }

  lemma SilenceStep(z: seq<Symbol>)
    requires |z| > 0 && z[|z| - 1] == NONE
    ensures Metrics(z) == Silence(Metrics(z[..|z| - 1]))
  {
  }

  /** The least weight of a run by the position of its last set bit. From position 12 on it is 7, the free distance
      of the code; before that the unknown start state can make it cheaper. */
  function LeastWeight(m: nat): nat {
    if m < 1 then 2 else if m < 3 then 3 else if m < 6 then 4 else if m < 10 then 5 else if m < 12 then 6 else 7
  }

  lemma WeightByLastBit(d: seq<bool>, m: nat)
    requires m + 4 < |d| && d[m]
    requires forall j :: m < j < |d| ==> !d[j]
    ensures LeastWeight(m) <= Distance(d, Zeros(|d| - 4))
  {
    hide Distance;
    LastBitWeight(d, m);
    MetricsOfSilence(m);
    SilenceOfEight(m);
  }

  lemma SilenceOfEight(m: nat)
    ensures LeastWeight(m) == SILENCE[if m < 13 then m else 13][8] + 2
  {
    if
    case m == 0 =>
    case m == 1 =>
    case m == 2 =>
    case m == 3 =>
    case m == 4 =>
    case m == 5 =>
    case m == 6 =>
    case m == 7 =>
    case m == 8 =>
    case m == 9 =>
    case m == 10 =>
    case m == 11 =>
    case m == 12 =>
    case m > 12 =>
  }

  /** LeastWeight is exact: some run whose last set bit is m has that weight. */
  lemma WeightIsAttained(m: nat)
    ensures exists d ::
              |d| == m + 5 && d[m] && !d[m + 1] && !d[m + 2] && !d[m + 3] && !d[m + 4]
              && Distance(d, Zeros(m + 1)) == LeastWeight(m)
  {
    hide EndState, Output, Cost, Survivor, Metrics;
    var z := Zeros(m);
    var w := Survivor(z, 8);
    var d := w + [false];
    SurvivorAttains(z, 8);
    OnlyOldestBit(w);
    MetricsOfSilence(m);
    SilenceOfEight(m);
    LastBitLeaves(d, m);
    assert d[..m + 5] == d && d[..m + 4] == w && Zeros(m + 1)[..m] == z;
  }

  lemma OnlyOldestBit(w: seq<bool>)
    requires |w| >= 4 && EndState(w) == 8
    ensures var n := |w|; w[n - 4] && !w[n - 3] && !w[n - 2] && !w[n - 1]
  {
  }

  // ----- decoding a damaged header ----------------------------------------------------------

  lemma {:induction false} LastSetBit(d: seq<bool>, i: nat) returns (m: nat)
    requires i < |d| && d[i]
    ensures i <= m < |d| && d[m] && forall j :: m < j < |d| ==> !d[j]
    decreases |d|
  {
    if d[|d| - 1] {
      m := |d| - 1;
    } else {
      m := LastSetBit(d[..|d| - 1], i);
    }
  }

  lemma EndsInZero(w: seq<bool>)
    requires |w| >= 4
    ensures EndState(w) == 0 <==> forall j :: |w| - 4 <= j < |w| ==> !w[j]
  {
  }

  /** Whatever reaches the decoder, the survivor of state 0 agrees with the run that was sent in every position
      whose LeastWeight is more than twice the number of damaged channel bits. */
  lemma DamageStaysEarly(w: seq<bool>, received: seq<Symbol>)
    requires |w| == |received| + 4 && EndState(w) == 0
    ensures forall i :: 0 <= i < |w| && 2 * Distance(w, received) < LeastWeight(i) ==> Survivor(received, 0)[i] == w[i]
  {
    hide Survivor, Distance, Metrics, EndState, LeastWeight;
    var v := Survivor(received, 0);
    SurvivorAttains(received, 0);
    MetricIsLowerBound(received, w);
    Triangle(v, w, received);
    Linear(v, w);
    EndsInZero(v);
    EndsInZero(w);
    var d := Difference(v, w);
    forall i | 0 <= i < |w| && v[i] != w[i]
      ensures LeastWeight(i) <= 2 * Distance(w, received)
    {
      var m := LastSetBit(d, i);
      WeightByLastBit(d, m);
      LeastWeightGrows(i, m);
    }
  }

  lemma LeastWeightGrows(i: nat, m: nat)
    requires i <= m
    ensures LeastWeight(i) <= LeastWeight(m)
  {
  }
}
