/** The Viterbi decoder and the convolutional encoder of the YSF header (ysf_bridge/ysf_codec.go). */
module Viterbi {
  import opened Bits
  import opened Trellis

  newtype uint16 = x: int | 0 <= x < 0x1_0000

  const MAX_SYMBOLS := 180

  // ----- sixteen decisions in one word -------------------------------------------------------

  const ONE: seq<bv16> := [0x1, 0x2, 0x4, 0x8, 0x10, 0x20, 0x40, 0x80,
                           0x100, 0x200, 0x400, 0x800, 0x1000, 0x2000, 0x4000, 0x8000]

  /** Bit s of the word. */
  predicate DecisionBit(dec: bv16, s: nat)
    requires s < 16
  {
    Both(dec, ONE[s]) != 0
  }

  function Both(x: bv16, y: bv16): bv16 { x & y }

  function Either(x: bv16, y: bv16): bv16 { x | y }

  function Shl(x: bv16): bv16 { x << 1 }

  /** dec with the decisions for states j and j + 1 added. */
  function AddDecisions(dec: bv16, j: nat, decision0: bool, decision1: bool): bv16
    requires j < 15
  {
    Either(dec, Either(if decision1 then ONE[j + 1] else 0, if decision0 then ONE[j] else 0))
  }

  lemma OneDoubles(s: nat)
    requires s < 15
    ensures ONE[s + 1] == Shl(ONE[s])
  {
  }

  lemma ShlApart(x: bv16, y: bv16)
    requires Both(x, y) == 0
    ensures Both(Shl(x), Shl(y)) == 0
  {
    assert (x << 1) & (y << 1) == (x & y) << 1;
  }

  lemma OneIsLow(y: bv16)
    ensures Both(1, Shl(y)) == 0
  {
  }

  lemma {:induction false} OnesApart(s: nat, t: nat)
    requires s < t < 16
    ensures Both(ONE[s], ONE[t]) == 0
  {
    hide Both, Shl;
    OneDoubles(t - 1);
    if s == 0 {
      OneIsLow(ONE[t - 1]);
    } else {
      OneDoubles(s - 1);
      OnesApart(s - 1, t - 1);
      ShlApart(ONE[s - 1], ONE[t - 1]);
    }
  }

  lemma OneNotZero(s: nat)
    requires s < 16
    ensures Both(ONE[s], ONE[s]) != 0
  {
  }

  lemma EitherBoth(x: bv16, y: bv16, z: bv16, m: bv16)
    ensures Both(Either(x, Either(y, z)), m) != 0 <==> Both(x, m) != 0 || Both(y, m) != 0 || Both(z, m) != 0
    ensures Both(0, m) == 0
  {
    BothZero(m);
    hide Both, Either;
    Distributes(x, Either(y, z), m);
    Distributes(y, z, m);
    EitherZero(Both(x, m), Both(Either(y, z), m));
    EitherZero(Both(y, m), Both(z, m));
  }

  lemma BothZero(m: bv16)
    ensures Both(0, m) == 0
  {
  }

  lemma Distributes(x: bv16, y: bv16, m: bv16)
    ensures Both(Either(x, y), m) == Either(Both(x, m), Both(y, m))
  {
    assert (x | y) & m == (x & m) | (y & m);
  }

  lemma EitherZero(x: bv16, y: bv16)
    ensures Either(x, y) == 0 <==> x == 0 && y == 0
  {
  }

  lemma BothCommutes(x: bv16, y: bv16)
    ensures Both(x, y) == Both(y, x)
  {
  }

  lemma AddedDecisions(dec: bv16, j: nat, decision0: bool, decision1: bool, s: nat)
    requires j < 15 && s < 16
    requires !DecisionBit(dec, j) && !DecisionBit(dec, j + 1)
    ensures DecisionBit(AddDecisions(dec, j, decision0, decision1), s)
            == if s == j then decision0 else if s == j + 1 then decision1 else DecisionBit(dec, s)
  {
    hide Both, Either;
    EitherBoth(dec, if decision1 then ONE[j + 1] else 0, if decision0 then ONE[j] else 0, ONE[s]);
    OneNotZero(s);
    Apart(s, j);
    Apart(s, j + 1);
  }

  lemma AllAddedDecisions(dec: bv16, j: nat, decision0: bool, decision1: bool)
    requires j < 15 && !DecisionBit(dec, j) && !DecisionBit(dec, j + 1)
    ensures forall s :: 0 <= s < 16 ==> (DecisionBit(AddDecisions(dec, j, decision0, decision1), s)
              == if s == j then decision0 else if s == j + 1 then decision1 else DecisionBit(dec, s))
  {
    hide DecisionBit, AddDecisions;
    forall s | 0 <= s < 16
      ensures DecisionBit(AddDecisions(dec, j, decision0, decision1), s)
              == if s == j then decision0 else if s == j + 1 then decision1 else DecisionBit(dec, s)
    {
      AddedDecisions(dec, j, decision0, decision1, s);
    }
  }

  /** The four candidate metrics of butterfly i, as the code adds them up. */
  lemma Butterfly(metrics: seq<nat>, i: nat, got: Symbol)
    requires |metrics| == 16 && i < 8
    ensures var m := (if BRANCH1[i] != got.g1 then 1 else 0) + if BRANCH2[i] != got.g2 then 1 else 0;
            && ViaLow(metrics, 2 * i, got) == metrics[i] + m && ViaHigh(metrics, 2 * i, got) == metrics[i + 8] + 2 - m
            && ViaLow(metrics, 2 * i + 1, got) == metrics[i] + 2 - m
            && ViaHigh(metrics, 2 * i + 1, got) == metrics[i + 8] + m
  {
    assert 2 * i / 2 == i && (2 * i + 1) / 2 == i;
  }

  lemma Apart(s: nat, t: nat)
    requires s < 16 && t < 16
    ensures s != t ==> Both(ONE[t], ONE[s]) == 0
  {
    hide Both;
    BothCommutes(ONE[t], ONE[s]);
    if s < t {
      OnesApart(s, t);
    } else if t < s {
      OnesApart(t, s);
    }
  }

  lemma NoDecisions()
    ensures forall s :: 0 <= s < 16 ==> !DecisionBit(0, s)
  {
  }

  ghost predicate Recorded(dec: bv16, received: seq<Symbol>)
    requires |received| > 0
  {
    forall s :: 0 <= s < 16 ==> DecisionBit(dec, s) == Decision(received, s)
  }

  /** What one step computes from the metrics of was are the metrics and decisions one symbol later. */
  lemma StepRecorded(was: seq<Symbol>, got: Symbol, dec: bv16)
    requires forall s :: 0 <= s < 16 ==> DecisionBit(dec, s) == TakesHigh(Metrics(was), s, got)
    ensures Recorded(dec, was + [got])
    ensures forall s :: 0 <= s < 16 ==> Metrics(was + [got])[s] == NewMetric(Metrics(was), s, got)
  {
    hide DecisionBit, TakesHigh, NewMetric;
    var received := was + [got];
    assert received[..|received| - 1] == was;
  }

  class YsfConvolution {
    var oldMetrics: array<uint16>
    var newMetrics: array<uint16>
    var decisions: array<bv16>
    var dp: nat
    ghost var received: seq<Symbol>

    ghost predicate Shaped()
      reads this
    {
      oldMetrics.Length == 16 && newMetrics.Length == 16 && oldMetrics != newMetrics && decisions.Length == MAX_SYMBOLS
    }

    /** The metrics and decisions are those of the symbols received since start. */
    ghost predicate Valid()
      reads this, oldMetrics, newMetrics, decisions
    {
      && Shaped()
      && dp == |received| <= MAX_SYMBOLS
      && (forall s :: 0 <= s < 16 ==> oldMetrics[s] as int == Metrics(received)[s])
      && (forall t :: 0 <= t < dp ==> Recorded(decisions[t], received[..t + 1]))
    }

    constructor ()
      ensures Shaped() && fresh(oldMetrics) && fresh(newMetrics) && fresh(decisions)
    {
      oldMetrics := new uint16[16](_ => 0);
      newMetrics := new uint16[16](_ => 0);
      decisions := new bv16[MAX_SYMBOLS](_ => 0);
      dp := 0;
      received := [];
    }

    method Start()
      requires Shaped()
      modifies this`dp, this`received, oldMetrics, newMetrics
      ensures Valid() && received == []
    {
      for i := 0 to 16
        invariant forall s :: 0 <= s < i ==> oldMetrics[s] == 0
      {
        oldMetrics[i] := 0;
        newMetrics[i] := 0;
      }
      dp := 0;
      received := [];
    }

    /** Consumes one received symbol. */
    method Decode(got: Symbol)
      requires Valid() && dp < MAX_SYMBOLS
      modifies this`oldMetrics, this`newMetrics, this`dp, this`received, newMetrics, decisions
      ensures Valid() && received == old(received) + [got]
      ensures {oldMetrics, newMetrics} == old({oldMetrics, newMetrics}) && decisions == old(decisions)
    {
      hide Recorded, Metrics, NewMetric, TakesHigh, DecisionBit;
      ghost var was, before := received, Metrics(received);
      MetricsBounded(was);
      var dec := AddCompareSelect(got, before);
      StepRecorded(was, got, dec);
      decisions[dp] := dec;
      dp := dp + 1;
      oldMetrics, newMetrics := newMetrics, oldMetrics;
      received := received + [got];
      assert received[..dp - 1] == was && received[..dp] == received;
      forall t | 0 <= t < dp - 1
        ensures Recorded(decisions[t], received[..t + 1])
      {
        assert received[..t + 1] == was[..t + 1];
      }
    }

    /** The eight butterflies of one step. */
    method AddCompareSelect(got: Symbol, ghost before: seq<nat>) returns (dec: bv16)
      requires Shaped() && |before| == 16
      requires forall s :: 0 <= s < 16 ==> oldMetrics[s] as int == before[s] <= 2 * MAX_SYMBOLS
      modifies newMetrics
      ensures forall s :: 0 <= s < 16 ==> newMetrics[s] as int == NewMetric(before, s, got)
      ensures forall s :: 0 <= s < 16 ==> DecisionBit(dec, s) == TakesHigh(before, s, got)
    {
      hide DecisionBit, AddDecisions, BranchMetric, ViaLow, ViaHigh, Cost;
      dec := 0;
      NoDecisions();
      for i := 0 to 8
        invariant forall s :: 0 <= s < 2 * i ==> newMetrics[s] as int == NewMetric(before, s, got)
        invariant forall s :: 0 <= s < 16 ==> DecisionBit(dec, s) == (s < 2 * i && TakesHigh(before, s, got))
      {
        var j := i * 2;
        var metric := ((if BRANCH1[i] != got.g1 then 1 else 0) + if BRANCH2[i] != got.g2 then 1 else 0) as uint16;
        Butterfly(before, i, got);

        var m0 := oldMetrics[i] + metric;
        var m1 := oldMetrics[i + 8] + (2 - metric);
        assert m0 as int == ViaLow(before, j, got) && m1 as int == ViaHigh(before, j, got);
        var decision0 := false;
        if m0 >= m1 {
          decision0 := true;
          newMetrics[j] := m1;
        } else {
          newMetrics[j] := m0;
        }

        m0 := oldMetrics[i] + (2 - metric);
        m1 := oldMetrics[i + 8] + metric;
        assert m0 as int == ViaLow(before, j + 1, got) && m1 as int == ViaHigh(before, j + 1, got);
        var decision1 := false;
        if m0 >= m1 {
          decision1 := true;
          newMetrics[j + 1] := m1;
        } else {
          newMetrics[j + 1] := m0;
        }

        AllAddedDecisions(dec, j, decision0, decision1);
        dec := AddDecisions(dec, j, decision0, decision1);
      }
    }

    /** Writes the oldest register bits along the survivor of state 0: bit n of out is what stood in the last
        stage of the register in step n + dp - nBits. */
    method Chainback(out: array<byte>, nBits: nat)
      requires Valid() && nBits <= dp && nBits <= 8 * out.Length
      modifies this`dp, out
      ensures dp == old(dp) - nBits
      ensures forall n :: 0 <= n < nBits ==> Unpack(out[..])[n] == Survivor(received, 0)[n + dp]
      ensures forall n :: nBits <= n < 8 * out.Length ==> Unpack(out[..])[n] == old(Unpack(out[..]))[n]
    {
      hide DecisionBit, Survivor, Decision;
      ghost var k := dp;
      ghost var w := Survivor(received, 0);
      assert received[..k] == received && w[..k + 4] == w;
      var state: nat := 0;
      var left := nBits;
      while left > 0
        invariant 0 <= left <= nBits && dp == k - (nBits - left) && 0 <= state < 256
        invariant Survivor(received[..dp], state / 16) == w[..dp + 4]
        invariant forall n :: left <= n < nBits ==> Unpack(out[..])[n] == w[n + k - nBits]
        invariant forall n :: nBits <= n < 8 * out.Length ==> Unpack(out[..])[n] == old(Unpack(out[..]))[n]
      {
        left := left - 1;
        dp := dp - 1;
        var idx := state / 16;
        var bit := DecisionBit(decisions[dp], idx);
        SurvivorStep(received[..dp + 1], idx);
        assert received[..dp + 1][..dp] == received[..dp];
        assert w[..dp + 5][..dp + 4] == w[..dp + 4];
        state := (if bit then 128 else 0) + state / 2;
        WriteBit(out, left, bit);
      }
    }
  }

  // ----- the encoder ------------------------------------------------------------------------

  /** The run of an encoder that starts from an empty register. */
  function EncoderRun(data: seq<byte>, nBits: nat): (w: seq<bool>)
    requires nBits <= 8 * |data|
    ensures |w| == nBits + 4
  {
    [false, false, false, false] + Unpack(data)[..nBits]
  }

  /** The first n symbols of the run stand in the bits, and nothing after them has changed. */
  ghost predicate Sent(bits: seq<bool>, was: seq<bool>, w: seq<bool>, n: nat)
    requires |bits| == |was| && 2 * n <= |bits| && n + 4 <= |w|
  {
    && (forall t :: 0 <= t < n ==> Symbol(bits[2 * t], bits[2 * t + 1]) == Output(w, t))
    && (forall j :: 2 * n <= j < |bits| ==> bits[j] == was[j])
  }

  lemma SentOneMore(bits: seq<bool>, was: seq<bool>, w: seq<bool>, n: nat, next: seq<bool>)
    requires |bits| == |was| && 2 * n + 2 <= |bits| && n + 5 <= |w| && Sent(bits, was, w, n)
    requires next == bits[2 * n := Output(w, n).g1][2 * n + 1 := Output(w, n).g2]
    ensures Sent(next, was, w, n + 1)
  {
    hide Output;
  }

  method EncodeYsfConv(data: seq<byte>, out: array<byte>, nBits: nat)
    requires nBits <= 8 * |data| && 2 * nBits <= 8 * out.Length
    modifies out
    ensures Sent(Unpack(out[..]), old(Unpack(out[..])), EncoderRun(data, nBits), nBits)
  {
    ghost var was := Unpack(out[..]);
    ghost var w := EncoderRun(data, nBits);
    var d1, d2, d3, d4 := false, false, false, false;
    var k := 0;
    assert Sent(was, was, w, 0);
    hide Sent, Unpack;
    for i := 0 to nBits
      invariant k == 2 * i
      invariant d4 == w[i] && d3 == w[i + 1] && d2 == w[i + 2] && d1 == w[i + 3]
      invariant Sent(Unpack(out[..]), was, w, i)
    {
      var d := ReadBit(data, i);
      var g1 := Plus(d, Plus(d3, d4));
      var g2 := Plus(d, Plus(d1, Plus(d2, d4)));
      assert d == w[i + 4] && Output(w, i) == Symbol(g1, g2);
      d4, d3, d2, d1 := d3, d2, d1, d;
      ghost var bits := Unpack(out[..]);
      WriteBit(out, k, g1);
      k := k + 1;
      WriteBit(out, k, g2);
      k := k + 1;
      SentOneMore(bits, was, w, i, Unpack(out[..]));
    }
  }
}
