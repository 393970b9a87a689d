/** The ADPCM codec that the IAX bridge calls G.726 (iax_bridge/codecs.go:104-312). int32 arithmetic wraps; a right
    shift of a signed number rounds down. Codes and bytes are numbers: a code is below 16 and (x << 4) | y is
    16 * x + y. */
module G726 {

  type int16 = x: int | -32768 <= x <= 32767
  type Code = c: int | 0 <= c < 16
  type Byte = b: int | 0 <= b < 256

  function Wrap32(x: int): (r: int)
    ensures -0x8000_0000 <= r < 0x8000_0000
    ensures -0x8000_0000 <= x < 0x8000_0000 ==> r == x
  {
    (x + 0x8000_0000) % 0x1_0000_0000 - 0x8000_0000
  }

  function Shr(x: int, k: nat): int
    requires k <= 15
  {
    x / POWERS[k]
  }

  const POWERS: seq<int> := [1, 2, 4, 8, 16, 32, 64, 128, 256, 512, 1024, 2048, 4096, 8192, 16384, 32768]

  // ----- the state as a value ---------------------------------------------------------------

  datatype State = State(sr: seq<int>, dq: seq<int>, a: seq<int>, b: seq<int>, pk: seq<int>, yu: int)

  const INITIAL_YU := 544
  const INITIAL := State([0, 0], [0, 0, 0, 0, 0, 0], [0, 0], [0, 0, 0, 0, 0, 0], [0, 0], INITIAL_YU)

  predicate Shaped(s: State) {
    |s.sr| == 2 && |s.dq| == 6 && |s.a| == 2 && |s.b| == 6 && |s.pk| == 2
  }

  const A_LIMIT := 12288
  const B_LIMIT := 16383
  const DQ_LIMIT := 53
  const SR_LIMIT := 131072 + 53

  function Abs(x: int): nat { if x < 0 then -x else x }

  predicate Within(v: seq<int>, limit: nat) {
    forall i :: 0 <= i < |v| ==> Abs(v[i]) <= limit
  }

  /** What holds of every state the codec can reach. In particular the step size never adapts: the largest difference
      it can produce, 53, stays far below the 408 that would raise it. */
  predicate Inv(s: State) {
    && Shaped(s) && s.yu == INITIAL_YU
    && Within(s.a, A_LIMIT) && Within(s.b, B_LIMIT) && Within(s.dq, DQ_LIMIT) && Within(s.sr, SR_LIMIT)
  }

  // ----- one sample -------------------------------------------------------------------------

  /** The first n products of v and w added to start, each sum in 32 bits. */
  function Dot(start: int, v: seq<int>, w: seq<int>, n: nat): int
    requires n <= |v| && n <= |w|
  {
    if n == 0 then start else Wrap32(Dot(start, v, w, n - 1) + Wrap32(v[n - 1] * w[n - 1]))
  }

  function Sez(s: State): int
    requires Shaped(s)
  {
    Shr(Dot(0, s.b, s.dq, 6), 14)
  }

  function Estimate(s: State): int
    requires Shaped(s)
  {
    Shr(Dot(Sez(s), s.a, s.sr, 2), 14)
  }

  function Magnitude(dln: int, y: int): (code: Code)
    requires 0 < y < 0x7FFF_FFFF
    ensures code < 8
  {
    if dln >= y then 7
    else
      var ratio := Quotient(Wrap32(dln * 32768), Wrap32(y + 1));
      if ratio < 80 then 0 else if ratio < 178 then 1 else if ratio < 346 then 2 else if ratio < 686 then 3
      else if ratio < 1355 then 4 else if ratio < 2708 then 5 else if ratio < 5765 then 6 else 7
  }

  /** Go's division: it rounds toward zero. */
  function Quotient(x: int, y: int): int
    requires y != 0
  {
    if x >= 0 then x / y else -((-x) / y)
  }

  const LEVELS: seq<int> := [0, 33, 95, 200, 400, 800, 1600, 3200]

  function Inverse(code: Code, y: int): int {
    var dq := Shr(Wrap32(LEVELS[code % 8] * y), 15);
    if code >= 8 then Wrap32(-dq) else dq
  }

  function Clamp(x: int, limit: int): int {
    if x > limit then limit else if x < -limit then -limit else x
  }

  function AStep(a: int, pk: int, pk0: int): int {
    Clamp(Wrap32(if pk == pk0 then a + 192 else a - 192), A_LIMIT)
  }

  function BStep(b: int, dq: int, past: int): int {
    Clamp(if dq == 0 then b else Wrap32(if (dq > 0 && past > 0) || (dq < 0 && past < 0) then b + 128 else b - 128),
          B_LIMIT)
  }

  function Sign(sr: int): int { if sr < 0 then 1 else 0 }

  function Y32(dq: int, yu: int): int {
    if dq > Shr(Wrap32(3 * yu), 2) then Wrap32(yu + 64) else if yu > 544 then yu - 1 else 544
  }

  function Updated(s: State, dq: int, sr: int): State
    requires Shaped(s)
  {
    var dqs := [dq] + s.dq[..5];
    State([sr, s.sr[0]], dqs,
          seq(2, i requires 0 <= i < 2 => AStep(s.a[i], s.pk[i], Sign(sr))),
          seq(6, i requires 0 <= i < 6 => BStep(s.b[i], dq, dqs[i])),
          [Sign(sr), s.pk[0]], Y32(Abs(dq), s.yu))
  }

  /** The code for a sample, and the state after it. */
  function Coded(s: State, sample: int16): (code: Code)
    requires Inv(s)
  {
    var d := Wrap32(sample - Estimate(s));
    var mag := Magnitude(Wrap32(Abs(d)), s.yu);
    if d < 0 then mag + 8 else mag
  }

  function Reconstructed(s: State, code: Code): int
    requires Shaped(s)
  {
    Wrap32(Estimate(s) + Inverse(code, s.yu))
  }

  function After(s: State, code: Code): State
    requires Shaped(s)
  {
    Updated(s, Inverse(code, s.yu), Reconstructed(s, code))
  }

  function Output(s: State, code: Code): int16
    requires Shaped(s)
  {
    var sr := Reconstructed(s, code);
    if sr > 32767 then 32767 else if sr < -32768 then -32768 else sr
  }

  // ----- every reachable state --------------------------------------------------------------

  lemma DifferenceBounded(code: Code)
    ensures Abs(Inverse(code, INITIAL_YU)) <= DQ_LIMIT
  {
    var m := code % 8;
    assert LEVELS[m] <= 3200;
  }

  lemma StepSizeStays(dq: int)
    requires Abs(dq) <= DQ_LIMIT
    ensures Y32(Abs(dq), INITIAL_YU) == INITIAL_YU
  {
  }

  lemma EstimateBounded(s: State)
    requires Shaped(s)
    ensures -131072 <= Estimate(s) <= 131071
  {
    var x := Dot(Sez(s), s.a, s.sr, 2);
    hide Dot, Sez;
    assert -0x8000_0000 <= x < 0x8000_0000 by { DotInRange(Sez(s), s.a, s.sr, 2); }
    assert POWERS[14] == 16384;
  }

  lemma DotInRange(start: int, v: seq<int>, w: seq<int>, n: nat)
    requires 0 < n <= |v| && n <= |w|
    ensures -0x8000_0000 <= Dot(start, v, w, n) < 0x8000_0000
  {
    hide Wrap32;
  }

  /** Whatever code arrives, from an encoder or not, the state stays within its bounds. */
  lemma AfterKeeps(s: State, code: Code)
    requires Inv(s)
    ensures Inv(After(s, code))
  {
    DifferenceBounded(code);
    EstimateBounded(s);
    StepSizeStays(Inverse(code, s.yu));
    hide Estimate, Inverse, AStep, BStep, Y32;
    var dq, sr := Inverse(code, s.yu), Reconstructed(s, code);
    var t := After(s, code);
    forall i | 0 <= i < 2 ensures Abs(t.a[i]) <= A_LIMIT {
      ABounded(s.a[i], s.pk[i], Sign(sr));
    }
    forall i | 0 <= i < 6 ensures Abs(t.b[i]) <= B_LIMIT {
      BBounded(s.b[i], dq, t.dq[i]);
    }
  }

  lemma ABounded(a: int, pk: int, pk0: int)
    ensures Abs(AStep(a, pk, pk0)) <= A_LIMIT
  {
  }

  lemma BBounded(b: int, dq: int, past: int)
    ensures Abs(BStep(b, dq, past)) <= B_LIMIT
  {
  }

  /** Of the two sums of a step, the first never wraps: it is the plain sum of products. */
  lemma {:induction false} FirstSumIsExact(s: State, n: nat)
    requires Inv(s) && n <= 6
    ensures Dot(0, s.b, s.dq, n) == Sum(s.b, s.dq, n) && Abs(Sum(s.b, s.dq, n)) <= n * (B_LIMIT * DQ_LIMIT)
  {
    if n > 0 {
      FirstSumIsExact(s, n - 1);
      ProductBounded(s.b[n - 1], s.dq[n - 1], B_LIMIT, DQ_LIMIT);
    }
  }

  function Sum(v: seq<int>, w: seq<int>, n: nat): int
    requires n <= |v| && n <= |w|
  {
    if n == 0 then 0 else Sum(v, w, n - 1) + v[n - 1] * w[n - 1]
  }

  lemma ProductBounded(x: int, y: int, p: nat, q: nat)
    requires Abs(x) <= p && Abs(y) <= q
    ensures Abs(x * y) <= p * q
  {
    assert Abs(x * y) == Abs(x) * Abs(y);
    assert Abs(x) * Abs(y) <= p * Abs(y) <= p * q;
  }

  // ----- whole streams ----------------------------------------------------------------------

  function Next(s: State, code: Code): (t: State)
    requires Inv(s)
    ensures Inv(t)
  {
    AfterKeeps(s, code);
    After(s, code)
  }

  /** The codes of a list of samples. */
  function Codes(s: State, pcm: seq<int16>): (codes: seq<Code>)
    requires Inv(s)
    ensures |codes| == |pcm|
    decreases |pcm|
  {
    if |pcm| == 0 then []
    else
      var code := Coded(s, pcm[0]);
      [code] + Codes(Next(s, code), pcm[1..])
  }

  /** The state after a list of codes. */
  function Run(s: State, codes: seq<Code>): (t: State)
    requires Inv(s)
    ensures Inv(t)
    decreases |codes|
  {
    if |codes| == 0 then s else Run(Next(s, codes[0]), codes[1..])
  }

  function Outputs(s: State, codes: seq<Code>): (pcm: seq<int16>)
    requires Inv(s)
    ensures |pcm| == |codes|
    decreases |codes|
  {
    if |codes| == 0 then [] else [Output(s, codes[0])] + Outputs(Next(s, codes[0]), codes[1..])
  }

  function Nibbles(high: Code, low: Code): Byte { 16 * high + low }

  function Packed(codes: seq<Code>): (data: seq<Byte>)
    requires |codes| % 2 == 0
    ensures |data| == |codes| / 2
  {
    if |codes| == 0 then [] else [Nibbles(codes[0], codes[1])] + Packed(codes[2..])
  }

  function Unpacked(data: seq<Byte>): (codes: seq<Code>)
    ensures |codes| == 2 * |data|
  {
    if |data| == 0 then [] else [data[0] / 16, data[0] % 16] + Unpacked(data[1..])
  }

  lemma {:induction false} UnpackedPacked(codes: seq<Code>)
    requires |codes| % 2 == 0
    ensures Unpacked(Packed(codes)) == codes
  {
    if |codes| > 0 {
      var rest := codes[2..];
      UnpackedPacked(rest);
      var data := Packed(codes);
      assert data[0] / 16 == codes[0] && data[0] % 16 == codes[1];
      assert data[1..] == Packed(rest);
      assert codes == [codes[0], codes[1]] + rest;
    }
  }

  // ----- how well it tracks -----------------------------------------------------------------

  /** What the eight magnitudes stand for at the one step size there is. */
  lemma Levels(dln: nat)
    ensures var code := Magnitude(if dln < 544 then dln else 544, INITIAL_YU);
            var dq := Inverse(code, INITIAL_YU);
            && 0 <= dq <= dln && Inverse(code + 8, INITIAL_YU) == -dq
            && (if dln <= 95 then dln - dq <= 69 else dq == DQ_LIMIT)
  {
    if dln < 544 {
      assert dln * 32768 < 0x8000_0000;
      var ratio := dln * 32768 / 545;
      assert 545 * ratio <= dln * 32768 < 545 * (ratio + 1);
    }
  }

  lemma BeyondTheStep(dln: int)
    requires dln >= 544
    ensures Magnitude(dln, INITIAL_YU) == 7
  {
  }

  /** The reconstruction never overshoots: it lies between the estimate and the sample. It is within 69 of the sample
      if the estimate was within 95, and otherwise 53 nearer than the estimate. */
  lemma TracksWithoutOvershoot(s: State, sample: int16)
    requires Inv(s)
    ensures var se, sr := Estimate(s), Reconstructed(s, Coded(s, sample));
            && (se <= sr <= sample || sample <= sr <= se)
            && (if Abs(sample - se) <= 95 then Abs(sample - sr) <= 69
                else Abs(sample - sr) == Abs(sample - se) - DQ_LIMIT)
  {
    EstimateBounded(s);
    var se := Estimate(s);
    hide Estimate, Magnitude, Inverse;
    var d := sample - se;
    Levels(Abs(d));
    if Abs(d) >= 544 {
      BeyondTheStep(Abs(d));
      BeyondTheStep(544);
    }
  }

  predicate Quiet(s: State) {
    Inv(s) && s.sr == [0, 0] && s.dq == [0, 0, 0, 0, 0, 0]
  }

  lemma {:induction false} DotOfZeros(v: seq<int>, w: seq<int>, n: nat)
    requires n <= |v| && n <= |w| && forall i :: 0 <= i < n ==> w[i] == 0
    ensures Dot(0, v, w, n) == 0
  {
    if n > 0 {
      DotOfZeros(v, w, n - 1);
      assert v[n - 1] * w[n - 1] == 0;
    }
  }

  lemma QuietStays(s: State)
    requires Quiet(s)
    ensures Coded(s, 0) == 0 && Output(s, 0) == 0 && Quiet(Next(s, 0))
  {
    DotOfZeros(s.b, s.dq, 6);
    DotOfZeros(s.a, s.sr, 2);
    hide Dot;
    assert Estimate(s) == 0;
    hide Estimate;
    assert Inverse(0, INITIAL_YU) == 0;
    assert Magnitude(0, INITIAL_YU) == 0;
    hide Inverse, Magnitude;
    AfterKeeps(s, 0);
    hide AStep, BStep, Y32, Inv;
  }

  /** Silence stays silence, however long it lasts. */
  lemma {:induction false} SilenceStaysSilence(s: State, pcm: seq<int16>)
    requires Quiet(s) && forall i :: 0 <= i < |pcm| ==> pcm[i] == 0
    ensures Outputs(s, Codes(s, pcm)) == pcm
    decreases |pcm|
  {
    hide Inv, Coded, Output, Next;
    if |pcm| > 0 {
      QuietStays(s);
      SilenceStaysSilence(Next(s, 0), pcm[1..]);
      assert Codes(s, pcm)[1..] == Codes(Next(s, 0), pcm[1..]);
      assert pcm == [0] + pcm[1..];
    } else {
      assert pcm == [];
    }
  }

  // ----- the code ---------------------------------------------------------------------------

  lemma InitialIsReachable()
    ensures Inv(INITIAL)
  {
  }

  class CodecState {
    const sr: array<int>
    const dq: array<int>
    const a: array<int>
    const b: array<int>
    const pk: array<int>
    var yu: int

    ghost function Repr(): set<object> { {this, sr, dq, a, b, pk} }

    ghost function Value(): State
      reads this, sr, dq, a, b, pk
    {
      State(sr[..], dq[..], a[..], b[..], pk[..], yu)
    }

    ghost predicate Separate() {
      sr != dq && sr != a && sr != b && sr != pk && dq != a && dq != b && dq != pk && a != b && a != pk && b != pk
    }

    ghost predicate Valid()
      reads this, sr, dq, a, b, pk
    {
      Separate() && Inv(Value())
    }

    constructor ()
      ensures Valid() && fresh(Repr()) && Value() == INITIAL
    {
      sr := new int[2](_ => 0);
      dq := new int[6](_ => 0);
      a := new int[2](_ => 0);
      b := new int[6](_ => 0);
      pk := new int[2](_ => 0);
      yu := 544;
      new;
      hide Inv;
      assert sr[..] == [0, 0] && dq[..] == [0, 0, 0, 0, 0, 0];
      assert a[..] == [0, 0] && b[..] == [0, 0, 0, 0, 0, 0] && pk[..] == [0, 0];
      InitialIsReachable();
    }

    /** The two sums over the past that both directions start with. */
    method Predict() returns (sez: int, se: int)
      requires Valid()
      ensures sez == Sez(Value()) && se == Estimate(Value())
    {
      hide Wrap32;
      sez := 0;
      for i := 0 to 6
        invariant sez == Dot(0, b[..], dq[..], i)
      {
        sez := Wrap32(sez + Wrap32(b[i] * dq[i]));
      }
      sez := Shr(sez, 14);
      se := sez;
      for i := 0 to 2
        invariant se == Dot(sez, a[..], sr[..], i)
      {
        se := Wrap32(se + Wrap32(a[i] * sr[i]));
      }
      se := Shr(se, 14);
    }

    method Encode(sample: int16) returns (code: Code)
      requires Valid()
      modifies Repr()
      ensures Valid() && code == Coded(old(Value()), sample) && Value() == Next(old(Value()), code)
    {
      ghost var s := Value();
      assert s.yu == INITIAL_YU;
      hide Estimate, Inverse, Magnitude, Updated, Wrap32, Sez;
      var sez, se := Predict();
      var d := Wrap32(sample - se);
      AbsWraps(d);
      var y := yu;
      var dln := if d < 0 then Wrap32(-d) else d;
      code := Magnitude(dln, y);
      if d < 0 {
        code := code + 8;
      }
      var diff := Inverse(code, y);
      UpdateState(diff, Wrap32(se + diff));
      AfterKeeps(s, code);
    }

    method Decode(code: Code) returns (sample: int16)
      requires Valid()
      modifies Repr()
      ensures Valid() && sample == Output(old(Value()), code) && Value() == Next(old(Value()), code)
    {
      ghost var s := Value();
      hide Estimate, Inverse, Updated, Wrap32, Sez;
      var sez, se := Predict();
      var y := yu;
      var diff := Inverse(code, y);
      var r := Wrap32(se + diff);
      UpdateState(diff, r);
      AfterKeeps(s, code);
      if r > 32767 {
        r := 32767;
      } else if r < -32768 {
        r := -32768;
      }
      sample := r;
    }

    method UpdateState(diff: int, r: int)
      requires Separate() && Shaped(Value())
      modifies Repr()
      ensures Value() == Updated(old(Value()), diff, r)
    {
      hide AStep, BStep, Y32, Wrap32;
      ghost var s := Value();
      ShiftIn(diff);
      sr[1] := sr[0];
      sr[0] := r;
      var pk0 := 0;
      if r < 0 {
        pk0 := 1;
      }
      AdaptA(pk0);
      pk[1] := pk[0];
      pk[0] := pk0;
      AdaptB(diff);
      var absDq := diff;
      if absDq < 0 {
        absDq := -absDq;
      }
      yu := Y32(absDq, yu);
      ghost var t := Updated(s, diff, r);
      assert a[..] == t.a && b[..] == t.b && pk[..] == t.pk && sr[..] == t.sr;
    }

    method ShiftIn(diff: int)
      requires Separate() && Shaped(Value())
      modifies dq
      ensures dq[..] == [diff] + old(dq[..5])
    {
      for i := 6 downto 1
        invariant forall k :: i <= k < 6 ==> dq[k] == old(dq[k - 1])
        invariant forall k :: 0 <= k < i ==> dq[k] == old(dq[k])
      {
        dq[i] := dq[i - 1];
      }
      dq[0] := diff;
    }

    method AdaptA(pk0: int)
      requires Separate() && Shaped(Value())
      modifies a
      ensures forall k :: 0 <= k < 2 ==> a[k] == AStep(old(a[k]), pk[k], pk0)
    {
      hide Wrap32;
      for i := 2 downto 0
        invariant forall k :: i <= k < 2 ==> a[k] == AStep(old(a[k]), pk[k], pk0)
        invariant forall k :: 0 <= k < i ==> a[k] == old(a[k])
      {
        if pk[i] == pk0 {
          a[i] := Wrap32(a[i] + 192);
        } else {
          a[i] := Wrap32(a[i] - 192);
        }
        if a[i] > 12288 {
          a[i] := 12288;
        } else if a[i] < -12288 {
          a[i] := -12288;
        }
      }
    }

    method AdaptB(diff: int)
      requires Separate() && Shaped(Value())
      modifies b
      ensures forall k :: 0 <= k < 6 ==> b[k] == BStep(old(b[k]), diff, dq[k])
    {
      hide Wrap32;
      for i := 6 downto 0
        invariant forall k :: i <= k < 6 ==> b[k] == BStep(old(b[k]), diff, dq[k])
        invariant forall k :: 0 <= k < i ==> b[k] == old(b[k])
      {
        if diff != 0 {
          if (diff > 0 && dq[i] > 0) || (diff < 0 && dq[i] < 0) {
            b[i] := Wrap32(b[i] + 128);
          } else {
            b[i] := Wrap32(b[i] - 128);
          }
        }
        if b[i] > 16383 {
          b[i] := 16383;
        } else if b[i] < -16383 {
          b[i] := -16383;
        }
      }
    }
  }

  lemma AbsWraps(d: int)
    requires -0x8000_0000 <= d < 0x8000_0000
    ensures (if d < 0 then Wrap32(-d) else d) == Wrap32(Abs(d))
  {
  }

  /** After i samples the encoder has produced codes and is in state t. */
  ghost predicate Upto(s: State, pcm: seq<int16>, i: nat, codes: seq<Code>, t: State)
    requires Inv(s) && i <= |pcm|
  {
    && Inv(t)
    && Codes(s, pcm) == codes + Codes(t, pcm[i..])
    && Run(s, Codes(s, pcm)) == Run(t, Codes(t, pcm[i..]))
  }

  lemma NoneYet(s: State, pcm: seq<int16>)
    requires Inv(s)
    ensures Upto(s, pcm, 0, [], s)
  {
    assert pcm[0..] == pcm;
  }

  lemma OneMore(s: State, pcm: seq<int16>, i: nat, codes: seq<Code>, t: State)
    requires Inv(s) && i < |pcm| && Upto(s, pcm, i, codes, t)
    ensures var code := Coded(t, pcm[i]); Upto(s, pcm, i + 1, codes + [code], Next(t, code))
  {
    hide Inv, Next, Coded;
    assert pcm[i..][1..] == pcm[i + 1..];
  }

  lemma CodesInAll(s: State, pcm: seq<int16>, codes: seq<Code>, t: State)
    requires Inv(s) && Upto(s, pcm, |pcm|, codes, t)
    ensures codes == Codes(s, pcm) && t == Run(s, codes)
  {
  }

  /** What the codec makes of a frame, or the index error that ends the bridge. */
  datatype Encoded = Frame(data: seq<Byte>) | OutOfRange

  class G726Codec {
    const encState: CodecState
    const decState: CodecState

    ghost function Repr(): set<object> { encState.Repr() + decState.Repr() }

    ghost predicate Valid()
      reads Repr()
    {
      encState.Repr() !! decState.Repr() && encState.Valid() && decState.Valid()
    }

    constructor ()
      ensures Valid() && fresh(Repr())
      ensures encState.Value() == INITIAL && decState.Value() == INITIAL
    {
      encState := new CodecState();
      decState := new CodecState();
    }

    /** A frame of odd length makes the source fail: its output has no byte for the last sample, which has moved the
        state all the same. */
    method Encode(pcm: seq<int16>) returns (r: Encoded)
      requires Valid()
      modifies encState.Repr()
      ensures Valid()
      ensures r == if |pcm| % 2 == 0 then Frame(Packed(Codes(old(encState.Value()), pcm))) else OutOfRange
      ensures encState.Value() == Run(old(encState.Value()), Codes(old(encState.Value()), pcm))
    {
      hide Inv, Upto, Codes, Packed, Run;
      ghost var s := encState.Value();
      NoneYet(s, pcm);
      var out := [];
      ghost var codes: seq<Code> := [];
      var i := 0;
      while i + 1 < |pcm|
        invariant 0 <= i <= |pcm| && i % 2 == 0 && |codes| == i
        invariant Valid() && out == Packed(codes)
        invariant Upto(s, pcm, i, codes, encState.Value())
      {
        var code1 := EncodeOne(s, pcm, i, codes, pcm[i]);
        var code2 := EncodeOne(s, pcm, i + 1, codes + [code1], pcm[i + 1]);
        out := out + [Nibbles(code1, code2)];
        PackedSnoc(codes, code1, code2);
        assert codes + [code1] + [code2] == codes + [code1, code2];
        codes := codes + [code1, code2];
        i := i + 2;
      }
      r := Frame(out);
      if i < |pcm| {
        var code1 := EncodeOne(s, pcm, i, codes, pcm[i]);
        codes := codes + [code1];
        r := OutOfRange;
      }
      CodesInAll(s, pcm, codes, encState.Value());
    }

    method EncodeOne(ghost s: State, ghost pcm: seq<int16>, ghost i: nat, ghost codes: seq<Code>, sample: int16)
      returns (code: Code)
      requires Valid() && Inv(s) && i < |pcm| && sample == pcm[i] && Upto(s, pcm, i, codes, encState.Value())
      modifies encState.Repr()
      ensures Valid() && Upto(s, pcm, i + 1, codes + [code], encState.Value())
    {
      hide Inv, Upto;
      ghost var t := encState.Value();
      code := encState.Encode(sample);
      OneMore(s, pcm, i, codes, t);
    }

    method Decode(data: seq<Byte>) returns (out: seq<int16>)
      requires Valid()
      modifies decState.Repr()
      ensures Valid() && out == Outputs(old(decState.Value()), Unpacked(data))
      ensures decState.Value() == Run(old(decState.Value()), Unpacked(data))
    {
      hide Inv, Next, Output, Outputs, Run, Unpacked;
      ghost var s := decState.Value();
      out := [];
      assert data[0..] == data;
      for i := 0 to |data|
        invariant Valid()
        invariant Outputs(s, Unpacked(data)) == out + Outputs(decState.Value(), Unpacked(data[i..]))
        invariant Run(s, Unpacked(data)) == Run(decState.Value(), Unpacked(data[i..]))
      {
        var b := data[i];
        UnpackedTwo(decState.Value(), data[i..]);
        assert data[i..][1..] == data[i + 1..];
        var first := decState.Decode(b / 16 % 16);
        var second := decState.Decode(b % 16);
        out := out + [first, second];
      }
      NothingUnpacked(decState.Value());
    }
  }

  lemma NothingUnpacked(s: State)
    requires Inv(s)
    ensures Outputs(s, Unpacked([])) == [] && Run(s, Unpacked([])) == s
  {
  }

  /** A byte makes the samples of its two codes, and leaves the state behind the second. */
  lemma UnpackedTwo(s: State, data: seq<Byte>)
    requires Inv(s) && |data| > 0
    ensures var high: Code, low: Code, rest := data[0] / 16, data[0] % 16, Unpacked(data[1..]);
            var t := Next(s, high);
            && Outputs(s, Unpacked(data)) == [Output(s, high), Output(t, low)] + Outputs(Next(t, low), rest)
            && Run(s, Unpacked(data)) == Run(Next(t, low), rest)
  {
    hide Inv, Next, Output;
    var codes := Unpacked(data);
    assert codes[1..][1..] == Unpacked(data[1..]);
  }

  lemma {:induction false} PackedSnoc(codes: seq<Code>, code1: Code, code2: Code)
    requires |codes| % 2 == 0
    ensures Packed(codes + [code1, code2]) == Packed(codes) + [Nibbles(code1, code2)]
  {
    var all := codes + [code1, code2];
    if |codes| > 0 {
      PackedSnoc(codes[2..], code1, code2);
      assert all[2..] == codes[2..] + [code1, code2];
    } else {
      assert all[2..] == [];
    }
  }

  // ----- encoder and decoder together -------------------------------------------------------

  /** What a decoder makes of an encoder's frames, one frame after the other, both starting in s. */
  function Sent(s: State, frames: seq<seq<int16>>): (data: seq<seq<Byte>>)
    requires Inv(s) && forall k :: 0 <= k < |frames| ==> |frames[k]| % 2 == 0
    decreases |frames|
  {
    if |frames| == 0 then [] else [Packed(Codes(s, frames[0]))] + Sent(Run(s, Codes(s, frames[0])), frames[1..])
  }

  function StateAfter(s: State, frames: seq<seq<int16>>): (t: State)
    requires Inv(s)
    decreases |frames|
  {
    if |frames| == 0 then s else StateAfter(Run(s, Codes(s, frames[0])), frames[1..])
  }

  function Heard(s: State, data: seq<seq<Byte>>): (frames: seq<seq<int16>>)
    requires Inv(s)
    decreases |data|
  {
    if |data| == 0 then [] else [Outputs(s, Unpacked(data[0]))] + Heard(Run(s, Unpacked(data[0])), data[1..])
  }

  function HeardState(s: State, data: seq<seq<Byte>>): (t: State)
    requires Inv(s)
    decreases |data|
  {
    if |data| == 0 then s else HeardState(Run(s, Unpacked(data[0])), data[1..])
  }

  /** The encoder's own reconstruction of a list of samples. */
  function Tracked(s: State, pcm: seq<int16>): (out: seq<int16>)
    requires Inv(s)
    decreases |pcm|
  {
    if |pcm| == 0 then []
    else
      var code := Coded(s, pcm[0]);
      [Output(s, code)] + Tracked(Next(s, code), pcm[1..])
  }

  function TrackedFrames(s: State, frames: seq<seq<int16>>): (out: seq<seq<int16>>)
    requires Inv(s)
    decreases |frames|
  {
    if |frames| == 0 then [] else [Tracked(s, frames[0])] + TrackedFrames(Run(s, Codes(s, frames[0])), frames[1..])
  }

  lemma {:induction false} OutputsTrack(s: State, pcm: seq<int16>)
    requires Inv(s)
    ensures Outputs(s, Codes(s, pcm)) == Tracked(s, pcm)
    decreases |pcm|
  {
    hide Inv, Coded, Next, Output;
    if |pcm| > 0 {
      var code := Coded(s, pcm[0]);
      OutputsTrack(Next(s, code), pcm[1..]);
      assert Codes(s, pcm)[1..] == Codes(Next(s, code), pcm[1..]);
    }
  }

  /** Encoder and decoder stay in lockstep over any number of frames of even length: what is heard is exactly the
      encoder's own reconstruction, and both end in the same state. */
  lemma {:induction false} Lockstep(s: State, frames: seq<seq<int16>>)
    requires Inv(s) && forall k :: 0 <= k < |frames| ==> |frames[k]| % 2 == 0
    ensures Heard(s, Sent(s, frames)) == TrackedFrames(s, frames)
    ensures HeardState(s, Sent(s, frames)) == StateAfter(s, frames)
    decreases |frames|
  {
    hide Inv, Codes, Run, Outputs, Tracked, Packed, Unpacked;
    if |frames| > 0 {
      var codes := Codes(s, frames[0]);
      UnpackedPacked(codes);
      OutputsTrack(s, frames[0]);
      Lockstep(Run(s, codes), frames[1..]);
      var data := Sent(s, frames);
      assert data[0] == Packed(codes) && data[1..] == Sent(Run(s, codes), frames[1..]);
    }
  }

  /** The step size of a decoder is the same after any bytes at all. */
  lemma StepSizeNeverAdapts(data: seq<seq<Byte>>)
    ensures HeardState(INITIAL, data).yu == INITIAL_YU
  {
    HeardKeeps(INITIAL, data);
  }

  lemma {:induction false} HeardKeeps(s: State, data: seq<seq<Byte>>)
    requires Inv(s)
    ensures Inv(HeardState(s, data))
    decreases |data|
  {
    hide Inv, Run, Unpacked;
    if |data| > 0 {
      HeardKeeps(Run(s, Unpacked(data[0])), data[1..]);
    }
  }
}
