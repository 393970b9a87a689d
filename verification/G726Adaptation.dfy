/** One sample of the IAX bridge's ADPCM codec in plain numbers, and which way its coefficients go
    (iax_bridge/codecs.go:136-312). */
module G726Adaptation {
  import opened G726

  // ----- plain numbers ----------------------------------------------------------------------

  /** The number from -limit to limit that is nearest to x. */
  ghost predicate Nearest(r: int, x: int, limit: int) {
    && -limit <= r <= limit
    && (-limit <= x <= limit ==> r == x) && (x > limit ==> r == limit) && (x < -limit ==> r == -limit)
  }

  /** x rounded down after division by 16384. */
  ghost predicate Scaled(r: int, x: int) { 16384 * r <= x < 16384 * r + 16384 }

  /** The difference that a code stands for. */
  function Difference(code: Code): int {
    match code
    case 0 => 0 case 1 => 0 case 2 => 1 case 3 => 3 case 4 => 6 case 5 => 13 case 6 => 26 case 7 => 53
    case 8 => 0 case 9 => 0 case 10 => -1 case 11 => -3 case 12 => -6 case 13 => -13 case 14 => -26 case _ => -53
  }

  /** The smallest difference from the estimate that gets each magnitude. */
  function From(mag: nat): nat
    requires mag < 8
  {
    match mag
    case 0 => 0 case 1 => 2 case 2 => 3 case 3 => 6 case 4 => 12 case 5 => 23 case 6 => 46 case _ => 96
  }

  lemma DifferenceIs(code: Code)
    ensures Inverse(code, INITIAL_YU) == Difference(code)
  {
    var m := code % 8;
    assert LEVELS[m] <= 3200 && POWERS[15] == 32768;
  }

  lemma MagnitudeIs(dln: nat)
    requires dln < 0x7FFF_FFFF
    ensures var m := Magnitude(dln, INITIAL_YU);
            From(m) <= dln && (m < 7 ==> dln < From(m + 1))
  {
    if dln < 544 {
      assert dln * 32768 < 0x8000_0000;
      var ratio := dln * 32768 / 545;
      assert 545 * ratio <= dln * 32768 < 545 * (ratio + 1);
    }
  }

  lemma NoWrap(x: int)
    requires -0x8000_0000 <= x < 0x8000_0000
    ensures Wrap32(x) == x
  {
  }

  lemma CodedIs(s: State, sample: int16)
    requires Inv(s)
    ensures var d: int := sample - Estimate(s);
            && G726.Abs(d) < 0x7FFF_FFFF
            && Coded(s, sample) as int == Magnitude(G726.Abs(d), INITIAL_YU) as int + if d < 0 then 8 else 0
  {
    EstimateBounded(s);
    var d: int := sample - Estimate(s);
    NoWrap(d);
    NoWrap(G726.Abs(d));
    hide Estimate, Magnitude, Wrap32;
  }

  /** The code of a sample says on which side of the estimate it is and between which two levels it is off. */
  lemma CodeIsLevel(s: State, sample: int16)
    requires Inv(s)
    ensures var code, d := Coded(s, sample), sample - Estimate(s);
            && (code >= 8 <==> d < 0)
            && From(code % 8) <= G726.Abs(d) && (code % 8 < 7 ==> G726.Abs(d) < From(code % 8 + 1))
  {
    hide Estimate, Magnitude, From, Coded;
    CodedIs(s, sample);
    var d: int := sample - Estimate(s);
    MagnitudeIs(G726.Abs(d));
    var mag := Magnitude(G726.Abs(d), INITIAL_YU);
    assert (mag + 8) % 8 == mag == mag % 8;
  }

  /** What the next estimate is worth, before it is rounded: the zeros' part, rounded itself, and the poles'. */
  function Value(s: State): int
    requires Shaped(s)
  {
    (s.b[0] * s.dq[0] + s.b[1] * s.dq[1] + s.b[2] * s.dq[2] + s.b[3] * s.dq[3] + s.b[4] * s.dq[4] + s.b[5] * s.dq[5])
    / 16384
    + s.a[0] * s.sr[0] + s.a[1] * s.sr[1]
  }

  lemma FirstSum(s: State)
    requires Inv(s)
    ensures Dot(0, s.b, s.dq, 6) ==
            s.b[0] * s.dq[0] + s.b[1] * s.dq[1] + s.b[2] * s.dq[2] + s.b[3] * s.dq[3] + s.b[4] * s.dq[4]
            + s.b[5] * s.dq[5]
  {
    FirstSumIsExact(s, 6);
    hide Wrap32, Dot, Inv;
    SixTerms(s.b, s.dq);
  }

  lemma SixTerms(v: seq<int>, w: seq<int>)
    requires |v| == 6 && |w| == 6
    ensures Sum(v, w, 6) == v[0] * w[0] + v[1] * w[1] + v[2] * w[2] + v[3] * w[3] + v[4] * w[4] + v[5] * w[5]
  {
    assert Sum(v, w, 0) == 0 && Sum(v, w, 1) == v[0] * w[0];
    assert Sum(v, w, 2) == v[0] * w[0] + v[1] * w[1];
    assert Sum(v, w, 4) == Sum(v, w, 2) + v[2] * w[2] + v[3] * w[3];
    assert Sum(v, w, 6) == Sum(v, w, 4) + v[4] * w[4] + v[5] * w[5];
  }

  lemma Wraps(x: int)
    ensures exists k: int :: Wrap32(x) == x - Times32(k) && -0x8000_0000 <= x - Times32(k) < 0x8000_0000
  {
    var k := (x + 0x8000_0000) / 0x1_0000_0000;
    assert Wrap32(x) == x - Times32(k);
  }

  function Times32(k: int): int { k * 0x1_0000_0000 }

  lemma WrapOnce(x: int, y: int)
    ensures Wrap32(Wrap32(x) + y) == Wrap32(x + y) && Wrap32(x + Wrap32(y)) == Wrap32(x + y)
  {
    Wraps(x);
    Wraps(y);
    var k :| Wrap32(x) == x - Times32(k);
    var l :| Wrap32(y) == y - Times32(l);
    Shifted(x + y, k);
    Shifted(x + y, l);
  }

  lemma Shifted(x: int, k: int)
    ensures Wrap32(x - Times32(k)) == Wrap32(x)
  {
    var q := (x + 0x8000_0000) / 0x1_0000_0000;
    assert (x + 0x8000_0000 - Times32(k)) / 0x1_0000_0000 == q - k;
  }

  /** The estimate is that value modulo 2 to the 32, scaled down. */
  lemma EstimateIs(s: State)
    requires Inv(s)
    ensures exists k: int ::
              && -0x8000_0000 <= Value(s) - Times32(k) < 0x8000_0000
              && Scaled(Estimate(s), Value(s) - Times32(k))
  {
    assert POWERS[14] == 16384;
    FirstSum(s);
    var sez := Sez(s);
    var p, q := s.a[0] * s.sr[0], s.a[1] * s.sr[1];
    assert Value(s) == sez + p + q;
    TwoTerms(sez, s.a, s.sr);
    hide Dot, Sez, Inv, Wrap32;
    assert Estimate(s) == Wrap32(sez + p + q) / 16384;
    Wraps(sez + p + q);
  }

  lemma TwoTerms(start: int, v: seq<int>, w: seq<int>)
    requires |v| == 2 && |w| == 2
    ensures Dot(start, v, w, 2) == Wrap32(start + v[0] * w[0] + v[1] * w[1])
  {
    hide Wrap32;
    var p, q := v[0] * w[0], v[1] * w[1];
    assert Dot(start, v, w, 0) == start;
    assert Dot(start, v, w, 1) == Wrap32(start + Wrap32(p));
    assert Dot(start, v, w, 2) == Wrap32(Wrap32(start + Wrap32(p)) + Wrap32(q));
    WrapOnce(start, p);
    WrapOnce(start + p, Wrap32(q));
    WrapOnce(start + p, q);
  }

  // ----- one step ---------------------------------------------------------------------------

  /** t is s after a code that stands for the difference d from the estimate se. */
  ghost predicate Steps(s: State, t: State, d: int, se: int)
    requires Shaped(s) && Shaped(t)
  {
    && t.sr == [se + d, s.sr[0]]
    && t.dq == [d, s.dq[0], s.dq[1], s.dq[2], s.dq[3], s.dq[4]]
    && t.pk == [if se + d < 0 then 1 else 0, s.pk[0]]
    && t.yu == 544
    && (forall i :: 0 <= i < 2 ==> Nearest(t.a[i], if s.pk[i] == t.pk[0] then s.a[i] + 192 else s.a[i] - 192, 12288))
    && (forall i :: 0 <= i < 6 ==> Nearest(t.b[i], s.b[i] + Drift(d, t.dq[i]), 16383))
  }

  /** Equal signs raise a coefficient, any others lower it, and no difference leaves it where it is. */
  function Drift(d: int, past: int): int {
    if d == 0 then 0 else if (d < 0 && past < 0) || (d > 0 && past > 0) then 128 else -128
  }

  lemma AStepIs(a: int, pk: int, pk0: int)
    requires G726.Abs(a) <= 12288
    ensures Nearest(AStep(a, pk, pk0), if pk == pk0 then a + 192 else a - 192, 12288)
  {
  }

  lemma BStepIs(b: int, d: int, past: int)
    requires G726.Abs(b) <= 16383
    ensures Nearest(BStep(b, d, past), b + Drift(d, past), 16383)
  {
  }

  /** A code moves the state by the difference it stands for, and the output is the estimate plus that difference, cut
      to sixteen bits. */
  lemma OneStep(s: State, code: Code)
    requires Inv(s)
    ensures Steps(s, Next(s, code), Difference(code), Estimate(s))
    ensures var r, x: int := Output(s, code), Estimate(s) + Difference(code);
            (-32768 <= x <= 32767 ==> r == x) && (x > 32767 ==> r == 32767) && (x < -32768 ==> r == -32768)
  {
    EstimateBounded(s);
    DifferenceIs(code);
    DifferenceBounded(code);
    StepSizeStays(Inverse(code, s.yu));
    hide Estimate, Inverse, Difference, AStep, BStep, Y32, Nearest;
    var t := Next(s, code);
    assert Reconstructed(s, code) == Estimate(s) + Difference(code);
    assert t == After(s, code);
    forall i | 0 <= i < 2
      ensures Nearest(t.a[i], if s.pk[i] == t.pk[0] then s.a[i] + 192 else s.a[i] - 192, 12288)
    {
      AStepIs(s.a[i], s.pk[i], t.pk[0]);
    }
    forall i | 0 <= i < 6
      ensures Nearest(t.b[i], s.b[i] + Drift(Difference(code), t.dq[i]), 16383)
    {
      BStepIs(s.b[i], Difference(code), t.dq[i]);
    }
  }

  /** In particular: where the new difference and a past one have the same sign, its coefficient does not fall; where
      they differ and neither is 0, it does not rise. */
  lemma SignsDecide(s: State, code: Code, i: nat)
    requires Inv(s) && i < 6
    ensures var t := Next(s, code);
            && (t.dq[0] * t.dq[i] > 0 ==> t.b[i] >= s.b[i])
            && (t.dq[0] * t.dq[i] < 0 ==> t.b[i] <= s.b[i])
            && (t.dq[0] == 0 ==> t.b[i] == s.b[i])
  {
    OneStep(s, code);
    var t := Next(s, code);
    hide Next, Inv, Difference, Estimate;
    SameSign(t.dq[0], t.dq[i]);
  }

  lemma SameSign(x: int, y: int)
    ensures x * y > 0 <==> (x < 0 && y < 0) || (x > 0 && y > 0)
    ensures x * y < 0 <==> (x < 0 && y > 0) || (x > 0 && y < 0)
  {
  }

  // ----- whole runs -------------------------------------------------------------------------

  /** Codes of magnitude 2 or more, all on one side. */
  predicate OneSided(codes: seq<Code>, up: bool) {
    forall i :: 0 <= i < |codes| ==> if up then 2 <= codes[i] <= 7 else 10 <= codes[i] <= 15
  }

  /** The last n differences, as far as they are kept, are on one side, and every coefficient has been rising since its
      own difference is. */
  ghost predicate Led(s: State, up: bool, n: nat)
    requires Shaped(s)
  {
    && (forall i :: 0 <= i < 6 && i < n ==> if up then s.dq[i] > 0 else s.dq[i] < 0)
    && (forall i :: 0 <= i < 6 ==> s.b[i] == 16383 || s.b[i] >= -16383 + 128 * (n - i))
  }

  lemma StepLeads(s: State, up: bool, n: nat, code: Code)
    requires Inv(s) && Led(s, up, n) && OneSided([code], up)
    ensures Led(Next(s, code), up, n + 1)
  {
    assert if up then Difference([code][0]) > 0 else Difference([code][0]) < 0;
    OneStep(s, code);
    var t := Next(s, code);
    hide Next, Difference, Estimate;
    assert if up then t.dq[0] > 0 else t.dq[0] < 0;
    forall i | 0 <= i < 6
      ensures t.b[i] == 16383 || t.b[i] >= -16383 + 128 * (n + 1 - i)
      ensures i < n + 1 ==> if up then t.dq[i] > 0 else t.dq[i] < 0
    {
      assert i > 0 ==> t.dq[i] == s.dq[i - 1];
      assert Nearest(t.b[i], s.b[i] + Drift(t.dq[0], t.dq[i]), 16383);
    }
  }

  lemma {:induction false} RunLeads(s: State, up: bool, n: nat, codes: seq<Code>)
    requires Inv(s) && Led(s, up, n) && OneSided(codes, up)
    ensures Led(Run(s, codes), up, n + |codes|)
    decreases |codes|
  {
    hide Next, Inv, Led;
    if |codes| > 0 {
      StepLeads(s, up, n, codes[0]);
      RunLeads(Next(s, codes[0]), up, n + 1, codes[1..]);
    }
  }

  /** From any reachable state, 261 codes of magnitude 2 or more on one side, whichever it is, bring all six zero
      coefficients to their upper limit. */
  lemma OneSideRaisesAll(s: State, up: bool, codes: seq<Code>)
    requires Inv(s) && OneSided(codes, up) && |codes| >= 261
    ensures Run(s, codes).b == [16383, 16383, 16383, 16383, 16383, 16383]
  {
    assert Led(s, up, 0);
    RunLeads(s, up, 0, codes);
    var t := Run(s, codes);
    hide Run, Led, OneSided;
    AllRaised(t, up, |codes|);
  }

  lemma AllRaised(t: State, up: bool, n: nat)
    requires Inv(t) && Led(t, up, n) && n >= 261
    ensures t.b == [16383, 16383, 16383, 16383, 16383, 16383]
  {
    forall i | 0 <= i < 6
      ensures t.b[i] == 16383
    {
      assert G726.Abs(t.b[i]) <= 16383;
    }
  }

  /** Code i is that of sample i in the state that the codes before it leave. */
  lemma {:induction false} CodeAt(s: State, pcm: seq<int16>, i: nat)
    requires Inv(s) && i < |pcm|
    ensures Codes(s, pcm)[i] == Coded(Run(s, Codes(s, pcm)[..i]), pcm[i])
    decreases i
  {
    hide Next, Inv, Coded;
    var codes := Codes(s, pcm);
    if i > 0 {
      CodeAt(Next(s, codes[0]), pcm[1..], i - 1);
      assert codes[1..] == Codes(Next(s, codes[0]), pcm[1..]);
      assert codes[..i][1..] == codes[1..][..i - 1];
    } else {
      assert codes[..0] == [];
    }
  }

  lemma {:induction false} OutputAt(s: State, codes: seq<Code>, i: nat)
    requires Inv(s) && i < |codes|
    ensures Outputs(s, codes)[i] == Output(Run(s, codes[..i]), codes[i])
    decreases i
  {
    hide Next, Inv, Output;
    if i > 0 {
      OutputAt(Next(s, codes[0]), codes[1..], i - 1);
      assert codes[..i][1..] == codes[1..][..i - 1];
    } else {
      assert codes[..0] == [];
    }
  }

  /** Two codes to a byte, the first in the upper half. */
  lemma {:induction false} PackedAt(codes: seq<Code>, i: nat)
    requires |codes| % 2 == 0 && i < |codes| / 2
    ensures Packed(codes)[i] == 16 * (codes[2 * i] as int) + codes[2 * i + 1]
  {
    if i > 0 {
      PackedAt(codes[2..], i - 1);
    }
  }

  lemma {:induction false} UnpackedAt(data: seq<Byte>, i: nat)
    requires i < |data|
    ensures data[i] == 16 * (Unpacked(data)[2 * i] as int) + Unpacked(data)[2 * i + 1]
  {
    if i > 0 {
      UnpackedAt(data[1..], i - 1);
    }
  }
}
