/** The rate-1/2, constraint length 5 convolutional code of the YSF header, and what a Viterbi decoder for it has to
    find (ysf_bridge/ysf_codec.go).

    A run of k encoder steps is the bit string of length k + 4 that has passed through the shift register: the four
    bits the register held at the start, oldest first, then the k input bits. Nothing is assumed about the first
    four, since the decoder does not know them. */
module Trellis {

  /** One received or transmitted pair of bits. */
  datatype Symbol = Symbol(g1: bool, g2: bool)

  /** What the encoder sends in step t: generators 1 + x^3 + x^4 and 1 + x + x^2 + x^4. */
  function Output(w: seq<bool>, t: nat): Symbol
    requires t + 4 < |w|
  {
    Symbol(Plus(w[t + 4], Plus(w[t + 1], w[t])), Plus(w[t + 4], Plus(w[t + 3], Plus(w[t + 2], w[t]))))
  }

  predicate Plus(a: bool, b: bool) { a != b }

  function Cost(sent: Symbol, got: Symbol): nat {
    (if sent.g1 != got.g1 then 1 else 0) + (if sent.g2 != got.g2 then 1 else 0)
  }

  /** How many channel bits of a run differ from what was received. */
  function Distance(w: seq<bool>, received: seq<Symbol>): nat
    requires |w| == |received| + 4
    decreases |received|
  {
    if |received| == 0 then 0
    else
      var k := |received| - 1;
      Distance(w[..k + 4], received[..k]) + Cost(Output(w, k), received[k])
  }

  // ----- trellis states: the register as a number, newest bit lowest -------------------------

  function Value(b: bool): nat { if b then 1 else 0 }

  function EndState(w: seq<bool>): (s: nat)
    requires |w| >= 4
    ensures s < 16
  {
    var n := |w|;
    Value(w[n - 1]) + 2 * Value(w[n - 2]) + 4 * Value(w[n - 3]) + 8 * Value(w[n - 4])
  }

  /** The decoder's branch tables, one entry per pair of states i and i + 8. */
  const BRANCH1: seq<bool> := [false, false, false, false, true, true, true, true]
  const BRANCH2: seq<bool> := [false, true, true, false, false, true, true, false]

  /** The cost of entering an even state from state i; entering the odd one, or coming from i + 8, costs the rest. */
  function BranchMetric(i: nat, got: Symbol): (m: nat)
    requires i < 8
    ensures m <= 2
  {
    Cost(Symbol(BRANCH1[i], BRANCH2[i]), got)
  }

  function ViaLow(metrics: seq<nat>, s: nat, got: Symbol): nat
    requires |metrics| == 16 && s < 16
  {
    metrics[s / 2] + if s % 2 == 0 then BranchMetric(s / 2, got) else 2 - BranchMetric(s / 2, got)
  }

  function ViaHigh(metrics: seq<nat>, s: nat, got: Symbol): nat
    requires |metrics| == 16 && s < 16
  {
    metrics[s / 2 + 8] + if s % 2 == 0 then 2 - BranchMetric(s / 2, got) else BranchMetric(s / 2, got)
  }

  /** On a tie the decoder takes the upper predecessor. */
  predicate TakesHigh(metrics: seq<nat>, s: nat, got: Symbol)
    requires |metrics| == 16 && s < 16
  {
    ViaLow(metrics, s, got) >= ViaHigh(metrics, s, got)
  }

  function NewMetric(metrics: seq<nat>, s: nat, got: Symbol): nat
    requires |metrics| == 16 && s < 16
  {
    if TakesHigh(metrics, s, got) then ViaHigh(metrics, s, got) else ViaLow(metrics, s, got)
  }

  /** The sixteen path metrics after a received sequence. All start at zero. */
  function Metrics(received: seq<Symbol>): (m: seq<nat>)
    ensures |m| == 16
  {
    if |received| == 0 then seq(16, _ => 0)
    else
      var k := |received| - 1;
      var before := Metrics(received[..k]);
      seq(16, s requires 0 <= s < 16 => NewMetric(before, s, received[k]))
  }

  /** The decision bit for state s after a non-empty received sequence. */
  predicate Decision(received: seq<Symbol>, s: nat)
    requires |received| > 0 && s < 16
  {
    TakesHigh(Metrics(received[..|received| - 1]), s, received[|received| - 1])
  }

  function Predecessor(s: nat, high: bool): (p: nat)
    requires s < 16
    ensures p < 16
  {
    s / 2 + if high then 8 else 0
  }

  /** The run that the decisions lead back to from state s. */
  function Survivor(received: seq<Symbol>, s: nat): (w: seq<bool>)
    requires s < 16
    ensures |w| == |received| + 4
    decreases |received|
  {
    if |received| == 0 then [s / 8 % 2 == 1, s / 4 % 2 == 1, s / 2 % 2 == 1, s % 2 == 1]
    else
      Survivor(received[..|received| - 1], Predecessor(s, Decision(received, s))) + [s % 2 == 1]
  }

  // ----- maximum-likelihood decoding --------------------------------------------------------

  /** Feeding d in state p leads to 2p + d, and the decoder charges the step what the encoder sends. */
  lemma StepCost(w: seq<bool>, got: Symbol)
    requires |w| >= 5
    ensures var n := |w| - 1;
            var p, s := EndState(w[..n]), EndState(w);
            && p == Predecessor(s, w[n - 4])
            && Cost(Output(w, n - 4), got)
               == if (s % 2 == 0) == w[n - 4] then 2 - BranchMetric(s / 2, got) else BranchMetric(s / 2, got)
  {
    hide EndState, BRANCH1, BRANCH2;
    var n := |w| - 1;
    StateBits(w);
    Branches(w[n - 1], w[n - 2], w[n - 3]);
  }

  lemma StateBits(w: seq<bool>)
    requires |w| >= 5
    ensures var n := |w| - 1;
            var older := Value(w[n - 1]) + 2 * Value(w[n - 2]) + 4 * Value(w[n - 3]);
            && EndState(w[..n]) == older + 8 * Value(w[n - 4])
            && EndState(w) / 2 == older && EndState(w) % 2 == Value(w[n])
  {
    var n := |w| - 1;
    assert EndState(w) == Value(w[n]) + 2 * (Value(w[n - 1]) + 2 * Value(w[n - 2]) + 4 * Value(w[n - 3]));
  }

  /** The branch tables hold what the generators make of the three bits between the newest and the oldest. */
  lemma Branches(d1: bool, d2: bool, d3: bool)
    ensures var i := Value(d1) + 2 * Value(d2) + 4 * Value(d3); BRANCH1[i] == d3 && BRANCH2[i] == (d1 != d2)
  {
  }

  /** No run that ends in state s is closer to the received symbols than the metric of s says. */
  lemma {:induction false} MetricIsLowerBound(received: seq<Symbol>, w: seq<bool>)
    requires |w| == |received| + 4
    ensures Metrics(received)[EndState(w)] <= Distance(w, received)
    decreases |received|
  {
    if |received| > 0 {
      var k := |received| - 1;
      MetricIsLowerBound(received[..k], w[..k + 4]);
      StepCost(w, received[k]);
    }
  }

  lemma {:induction false} SurvivorEnds(received: seq<Symbol>, s: nat)
    requires s < 16
    ensures EndState(Survivor(received, s)) == s
    decreases |received|
  {
    if |received| > 0 {
      hide Decision, EndState;
      var high := Decision(received, s);
      var w := Survivor(received[..|received| - 1], Predecessor(s, high));
      SurvivorEnds(received[..|received| - 1], Predecessor(s, high));
      assert Survivor(received, s) == w + [s % 2 == 1];
      hide Survivor, Predecessor, Value;
      Append(w, s % 2 == 1);
      PredecessorLeads(s, high);
    }
  }

  lemma PredecessorLeads(s: nat, high: bool)
    requires s < 16
    ensures 2 * Predecessor(s, high) % 16 + Value(s % 2 == 1) == s
  {
  }

  lemma Append(w: seq<bool>, d: bool)
    requires |w| >= 4
    ensures EndState(w + [d]) == 2 * EndState(w) % 16 + Value(d)
  {
  }

  /** The survivor of state s ends in s and is exactly as far from the received symbols as its metric. */
  lemma {:induction false} SurvivorAttains(received: seq<Symbol>, s: nat)
    requires s < 16
    ensures EndState(Survivor(received, s)) == s
    ensures Distance(Survivor(received, s), received) == Metrics(received)[s]
    decreases |received|
  {
    SurvivorEnds(received, s);
    if |received| > 0 {
      var k := |received| - 1;
      var w, before := Survivor(received, s), Metrics(received[..k]);
      var p := Predecessor(s, Decision(received, s));
      SurvivorAttains(received[..k], p);
      OldestBit(Survivor(received[..k], p));
      assert w[..k + 4] == Survivor(received[..k], p);
      assert w[k] == Decision(received, s) == TakesHigh(before, s, received[k]);
      hide Survivor, EndState, Decision, TakesHigh;
      ChosenBranch(before, w, received[k]);
    }
  }

  lemma OldestBit(w: seq<bool>)
    requires |w| >= 4
    ensures w[|w| - 4] <==> EndState(w) >= 8
  {
  }

  lemma ChosenBranch(metrics: seq<nat>, w: seq<bool>, got: Symbol)
    requires |metrics| == 16 && |w| >= 5
    requires w[|w| - 5] == TakesHigh(metrics, EndState(w), got)
    ensures NewMetric(metrics, EndState(w), got) == metrics[EndState(w[..|w| - 1])] + Cost(Output(w, |w| - 5), got)
  {
    StepCost(w, got);
    hide EndState, Cost, BranchMetric, Output;
  }

  lemma SameEndSameBits(u: seq<bool>, v: seq<bool>)
    requires |u| == |v| >= 4 && EndState(u) == EndState(v)
    ensures forall i :: |u| - 4 <= i < |u| ==> u[i] == v[i]
  {
  }

  lemma SurvivorStep(received: seq<Symbol>, s: nat)
    requires |received| > 0 && s < 16
    ensures var k := |received| - 1;
            var w, high := Survivor(received, s), Decision(received, s);
            && w[..k + 4] == Survivor(received[..k], Predecessor(s, high))
            && w[k] == high
  {
    hide Decision;
    var k, high := |received| - 1, Decision(received, s);
    var v := Survivor(received[..k], Predecessor(s, high));
    assert Survivor(received, s) == v + [s % 2 == 1];
    SurvivorEnds(received[..k], Predecessor(s, high));
    OldestBit(v);
  }

  /** A closest run that makes the decoder's last choice is itself a continuation of a closest run; if it makes the
      other one, that was a tie and the decoder took the one. */
  lemma BestComesFromBest(received: seq<Symbol>, u: seq<bool>)
    requires |received| > 0 && |u| == |received| + 4 && Distance(u, received) == Metrics(received)[EndState(u)]
    ensures var k, high := |received| - 1, Decision(received, EndState(u));
            && EndState(u[..k + 4]) == Predecessor(EndState(u), u[k])
            && if u[k] == high then Distance(u[..k + 4], received[..k]) == Metrics(received[..k])[EndState(u[..k + 4])]
               else high
  {
    var k := |received| - 1;
    MetricIsLowerBound(received[..k], u[..k + 4]);
    StepCost(u, received[k]);
    LastSymbol(u, received);
    hide EndState, Distance, Cost, Output, BranchMetric;
  }

  lemma LastSymbol(u: seq<bool>, received: seq<Symbol>)
    requires |received| > 0 && |u| == |received| + 4
    ensures var k := |received| - 1;
            Distance(u, received) == Distance(u[..k + 4], received[..k]) + Cost(Output(u, k), received[k])
  {
  }

  /** The decoder breaks ties towards ones, latest bit first: where a run that ends in s is as close as the survivor
      of s, the survivor has the one in the last position in which the two differ. */
  lemma {:induction false} TiesGoToOnes(received: seq<Symbol>, u: seq<bool>, m: nat)
    requires |u| == |received| + 4 && Distance(u, received) == Metrics(received)[EndState(u)]
    requires m < |u| && Survivor(received, EndState(u))[m] != u[m]
    requires forall i :: m < i < |u| ==> Survivor(received, EndState(u))[i] == u[i]
    ensures Survivor(received, EndState(u))[m]
    decreases |received|
  {
    hide Metrics, Distance, EndState, Survivor, Decision;
    var s := EndState(u);
    SurvivorEnds(received, s);
    SameEndSameBits(u, Survivor(received, s));
    BestComesFromBest(received, u);
    SurvivorStep(received, s);
    if u[|received| - 1] == Decision(received, s) {
      TiesGoToOnes(received[..|received| - 1], u[..|u| - 1], m);
    }
  }

  lemma {:induction false} MetricsBounded(received: seq<Symbol>)
    ensures forall s :: 0 <= s < 16 ==> Metrics(received)[s] <= 2 * |received|
    decreases |received|
  {
    if |received| > 0 {
      MetricsBounded(received[..|received| - 1]);
    }
  }
}
