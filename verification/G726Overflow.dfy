/** When the estimate of the adaptive codec overflows its 32 bits (iax_bridge/codecs.go:158-169, 216-227), and which
    input drives it there. */
module G726Overflow {
  import opened G726

  const INT32_MAX := 0x7FFF_FFFF
  const INT32_MIN := -0x8000_0000

  /** The second sum of a step as it would be without a word length. */
  function Plain(s: State): int
    requires Shaped(s)
  {
    Sez(s) + s.a[0] * s.sr[0] + s.a[1] * s.sr[1]
  }

  function SecondSum(s: State): int
    requires Shaped(s)
  {
    Dot(Sez(s), s.a, s.sr, 2)
  }

  predicate Wraps(s: State)
    requires Shaped(s)
  {
    SecondSum(s) != Plain(s)
  }

  lemma SezBounded(s: State)
    requires Inv(s)
    ensures -318 <= Sez(s) <= 317
  {
    FirstSumIsExact(s, 6);
    hide Dot, Sum;
    assert POWERS[14] == 16384;
  }

  lemma SecondSumIsWrapped(s: State)
    requires Inv(s)
    ensures SecondSum(s) == Wrap32(Plain(s))
  {
    SezBounded(s);
    hide Sez;
    ProductBounded(s.a[0], s.sr[0], A_LIMIT, SR_LIMIT);
    ProductBounded(s.a[1], s.sr[1], A_LIMIT, SR_LIMIT);
    var p, q := s.a[0] * s.sr[0], s.a[1] * s.sr[1];
    hide Wrap32;
    assert Dot(Sez(s), s.a, s.sr, 1) == Wrap32(Dot(Sez(s), s.a, s.sr, 0) + Wrap32(p));
    assert Dot(Sez(s), s.a, s.sr, 2) == Wrap32(Dot(Sez(s), s.a, s.sr, 1) + Wrap32(q));
  }

  // ----- exactly when -----------------------------------------------------------------------

  /** Only the last addition can overflow: the sum is exact if and only if its true value fits 32 bits. */
  lemma WrapsIffTooLarge(s: State)
    requires Inv(s)
    ensures !Wraps(s) <==> INT32_MIN <= Plain(s) <= INT32_MAX
  {
    SecondSumIsWrapped(s);
    hide SecondSum, Plain;
  }

  /** With both predictor coefficients at their limit, the two reconstructions before decide. */
  lemma AtLimitWrapsIff(s: State)
    requires Inv(s) && s.a == [A_LIMIT, A_LIMIT]
    ensures !Wraps(s) <==> Abs(s.sr[0] + s.sr[1]) <= 174762
  {
    WrapsIffTooLarge(s);
    SezBounded(s);
    hide Sez, Wraps;
  }

  /** Whatever the coefficients, small reconstructions never overflow; 174762 is the best such bound, by the lemma
      above. */
  lemma SmallPastNeverWraps(s: State)
    requires Inv(s) && Abs(s.sr[0]) + Abs(s.sr[1]) <= 174762
    ensures !Wraps(s)
  {
    WrapsIffTooLarge(s);
    SezBounded(s);
    ProductBounded(s.a[0], s.sr[0], A_LIMIT, Abs(s.sr[0]));
    ProductBounded(s.a[1], s.sr[1], A_LIMIT, Abs(s.sr[1]));
    hide Sez, Wraps;
    var p, q := s.a[0] * s.sr[0], s.a[1] * s.sr[1];
    assert Abs(p) + Abs(q) <= A_LIMIT * (Abs(s.sr[0]) + Abs(s.sr[1]));
  }

  /** What an overflow sounds like: the sample comes out at the opposite end of the scale. */
  lemma WrapFlipsTheSample(s: State, code: Code)
    requires Inv(s) && Wraps(s)
    ensures Output(s, code) == if Plain(s) > 0 then -32768 else 32767
  {
    WrapsIffTooLarge(s);
    SecondSumIsWrapped(s);
    SezBounded(s);
    ProductBounded(s.a[0], s.sr[0], A_LIMIT, SR_LIMIT);
    ProductBounded(s.a[1], s.sr[1], A_LIMIT, SR_LIMIT);
    DifferenceBounded(code);
    hide Sez, Wraps, Inverse, Plain;
    assert POWERS[14] == 16384;
    assert Abs(Plain(s)) <= 318 + 2 * (A_LIMIT * SR_LIMIT) by { PlainIs(s); }
  }

  lemma PlainIs(s: State)
    requires Shaped(s)
    ensures Plain(s) == Sez(s) + s.a[0] * s.sr[0] + s.a[1] * s.sr[1]
  {
  }

  // ----- which way ---------------------------------------------------------------------------

  /** How far x lies in a direction, up or down; and the sign the state remembers for it. */
  function Toward(up: bool, x: int): int { if up then x else -x }

  function SignOf(up: bool): int { if up then 0 else 1 }

  predicate Overflows(up: bool, s: State)
    requires Shaped(s)
  {
    if up then Plain(s) > INT32_MAX else Plain(s) < INT32_MIN
  }

  /** The last two reconstructions lie at least x and y in one direction, and the coefficients are at least p and q. */
  predicate Moving(up: bool, s: State, p: int, q: int, x: int, y: int) {
    && Inv(s) && s.pk == [SignOf(up), SignOf(up)] && s.a[0] >= p && s.a[1] >= q
    && Toward(up, s.sr[0]) >= x && Toward(up, s.sr[1]) >= y
  }

  /** At least, at their limit. */
  function Raised(p: int): int { if p + 192 > A_LIMIT then A_LIMIT else p + 192 }

  lemma InvIsShaped(s: State)
    requires Inv(s)
    ensures Shaped(s)
  {
  }

  lemma ProductAtLeast(a: int, b: int, p: int, x: int)
    requires a >= p >= 0 && b >= x >= 0
    ensures a * b >= p * x >= 0
  {
    assert a * b >= p * b;
    assert p * b >= p * x;
  }

  lemma TowardProduct(up: bool, a: int, r: int)
    ensures Toward(up, a * r) == a * Toward(up, r)
  {
  }

  lemma PlainToward(up: bool, s: State, p: int, q: int, x: int, y: int)
    requires Moving(up, s, p, q, x, y) && p >= 0 && q >= 0 && x >= 0 && y >= 0
    ensures Toward(up, Plain(s)) >= p * x + q * y - 318 >= -318
  {
    SezBounded(s);
    PlainIs(s);
    ProductAtLeast(s.a[0], Toward(up, s.sr[0]), p, x);
    ProductAtLeast(s.a[1], Toward(up, s.sr[1]), q, y);
    TowardProduct(up, s.a[0], s.sr[0]);
    TowardProduct(up, s.a[1], s.sr[1]);
    hide Sez, Plain;
  }

  /** With everything in one direction there is only one way to overflow. */
  lemma MovingOverflows(up: bool, s: State, p: int, q: int, x: int, y: int)
    requires Moving(up, s, p, q, x, y) && p >= 0 && q >= 0 && x >= 0 && y >= 0
    ensures Wraps(s) <==> Overflows(up, s)
  {
    WrapsIffTooLarge(s);
    PlainToward(up, s, p, q, x, y);
    hide Wraps, Plain;
  }

  lemma EstimateUnlessWraps(s: State)
    requires Inv(s) && !Wraps(s)
    ensures Estimate(s) == Plain(s) / 16384
  {
    WrapsIffTooLarge(s);
    hide Plain, Sez, Dot;
    assert POWERS[14] == 16384;
  }

  lemma ReconstructionIs(s: State, code: Code)
    requires Inv(s)
    ensures Reconstructed(s, code) == Estimate(s) + Inverse(code, s.yu)
    ensures Abs(Inverse(code, s.yu)) <= DQ_LIMIT
  {
    EstimateBounded(s);
    DifferenceBounded(code);
    hide Estimate, Inverse;
  }

  /** The reconstruction comes out at least 53 beyond the estimate in that direction, or at least at 110. */
  predicate Lifts(up: bool, s: State, code: Code)
    requires Inv(s)
  {
    Toward(up, Reconstructed(s, code)) >= 110
    || Toward(up, Reconstructed(s, code)) >= Toward(up, Estimate(s)) + DQ_LIMIT
  }

  /** What the next reconstruction is at least, after a code that lifts and after any code. */
  predicate Lifted(p: int, q: int, x: int, y: int, next: int) {
    1 <= next <= 110 && 16384 * (next - DQ_LIMIT) <= p * x + q * y - 318
  }

  predicate Kept(p: int, q: int, x: int, y: int, next: int) {
    1 <= next && 16384 * (next + DQ_LIMIT) <= p * x + q * y - 318
  }

  lemma FloorToward(up: bool, n: int, m: int)
    requires Toward(up, n) >= 16384 * m
    ensures Toward(up, n / 16384) >= m
  {
  }

  lemma MovingStep(up: bool, s: State, code: Code, p: int, q: int, x: int, y: int, next: int)
    requires Moving(up, s, p, q, x, y) && p >= 0 && q >= 0 && x >= 0 && y >= 0 && !Wraps(s)
    requires (Lifted(p, q, x, y, next) && Lifts(up, s, code)) || Kept(p, q, x, y, next)
    ensures Moving(up, Next(s, code), Raised(p), Raised(q), next, x)
  {
    PlainToward(up, s, p, q, x, y);
    EstimateUnlessWraps(s);
    ReconstructionIs(s, code);
    var m := if Kept(p, q, x, y, next) then next + DQ_LIMIT else next - DQ_LIMIT;
    FloorToward(up, Plain(s), m);
    hide Estimate, Inverse, Wraps, Plain, Reconstructed;
    assert Toward(up, Reconstructed(s, code)) >= next;
    SideStep(up, s, code);
  }

  /** A reconstruction on the same side again raises both coefficients. */
  lemma SideStep(up: bool, s: State, code: Code)
    requires Inv(s) && Sign(Reconstructed(s, code)) == SignOf(up) == s.pk[0] == s.pk[1]
    ensures var t := Next(s, code);
            && Inv(t) && t.pk == [SignOf(up), SignOf(up)] && t.sr == [Reconstructed(s, code), s.sr[0]]
            && t.a == [Raised(s.a[0]), Raised(s.a[1])]
  {
    hide Reconstructed, Inverse, BStep, Y32;
    RaisedIs(s.a[0], SignOf(up));
    RaisedIs(s.a[1], SignOf(up));
    assert Inv(Next(s, code));
    hide Inv, AStep;
  }

  lemma RaisedIs(a: int, pk: int)
    requires -A_LIMIT <= a <= A_LIMIT
    ensures AStep(a, pk, pk) == Raised(a)
  {
  }

  // ----- runs -------------------------------------------------------------------------------

  lemma {:induction false} RunSnoc(s: State, codes: seq<Code>, k: nat)
    requires Inv(s) && k < |codes|
    ensures Run(s, codes[..k + 1]) == Next(Run(s, codes[..k]), codes[k])
    decreases k
  {
    hide Inv, Next;
    var head := codes[..k + 1];
    if k > 0 {
      RunSnoc(Next(s, codes[0]), codes[1..], k - 1);
      assert head[1..] == codes[1..][..k] && codes[..k][1..] == codes[1..][..k - 1];
    } else {
      assert head[1..] == [] && codes[..0] == [];
    }
  }

  lemma InitialIsFine()
    ensures Inv(INITIAL)
  {
  }

  /** The state after codes, from the start. */
  function Reached(codes: seq<Code>): (s: State)
    ensures Inv(s)
  {
    InitialIsFine();
    Run(INITIAL, codes)
  }

  function Decoded(codes: seq<Code>): (pcm: seq<int16>)
    ensures |pcm| == |codes|
  {
    InitialIsFine();
    Outputs(INITIAL, codes)
  }

  function EncodedFrom(pcm: seq<int16>): (codes: seq<Code>)
    ensures |codes| == |pcm|
  {
    InitialIsFine();
    Codes(INITIAL, pcm)
  }

  lemma ReachedSnoc(codes: seq<Code>, k: nat)
    requires k < |codes|
    ensures Reached(codes[..k + 1]) == Next(Reached(codes[..k]), codes[k])
  {
    InitialIsFine();
    hide Inv, Next, Run;
    RunSnoc(INITIAL, codes, k);
  }

  /** Among the states that the first n codes lead to, the one before them included, one overflows. */
  ghost predicate OverflowsWithin(up: bool, codes: seq<Code>, n: nat) {
    exists k :: 0 <= k <= n && k <= |codes| && Overflows(up, Reached(codes[..k]))
  }

  ghost predicate LiftsAt(up: bool, codes: seq<Code>, k: nat)
    requires k < |codes|
  {
    Lifts(up, Reached(codes[..k]), codes[k])
  }

  lemma MovingOn(up: bool, codes: seq<Code>, k: nat, p: int, q: int, x: int, y: int, next: int)
    requires k < |codes| && Moving(up, Reached(codes[..k]), p, q, x, y) && p >= 0 && q >= 0 && x >= 0 && y >= 0
    requires (Lifted(p, q, x, y, next) && LiftsAt(up, codes, k)) || Kept(p, q, x, y, next)
    ensures OverflowsWithin(up, codes, k) || Moving(up, Reached(codes[..k + 1]), Raised(p), Raised(q), next, x)
  {
    hide Inv, Wraps, Overflows, Moving, Next, Reached, Lifts, Lifted, Kept, Raised;
    var s := Reached(codes[..k]);
    InvIsShaped(s);
    MovingOverflows(up, s, p, q, x, y);
    if Wraps(s) {
      assert OverflowsWithin(up, codes, k);
    } else {
      MovingStep(up, s, codes[k], p, q, x, y, next);
      ReachedSnoc(codes, k);
    }
  }

  // ----- running away -----------------------------------------------------------------------

  /** Both coefficients at their limit, and two reconstructions of at least x and y in one direction. */
  predicate Runaway(up: bool, s: State, x: int, y: int) {
    Moving(up, s, A_LIMIT, A_LIMIT, x, y)
  }

  /** The slowest way up from two reconstructions of 110: each rung is a lower bound on the reconstruction after the
      two before it. */
  const LADDER: seq<int> := [
    110, 110, 111, 112, 114, 116, 119, 123, 128, 135, 144, 156, 171, 192, 219, 255, 302, 364, 446, 554, 696, 884,
    1131, 1458, 1888, 2456, 3204, 4191, 5493, 7209, 9473, 12458, 16395, 21586, 28432, 37460, 49365, 65065, 85769,
    113072
  ]

  const RUNGS := 38

  lemma Rung(i: nat)
    requires i < RUNGS
    ensures LADDER[i + 1] >= 110 && LADDER[i] >= 110
    ensures Kept(A_LIMIT, A_LIMIT, LADDER[i + 1], LADDER[i], LADDER[i + 2])
  {
  }

  lemma TopRung()
    ensures |LADDER| == RUNGS + 2
    ensures LADDER[RUNGS + 1] + LADDER[RUNGS] > 174762 && LADDER[RUNGS + 1] >= 0 && LADDER[RUNGS] >= 0
  {
  }

  lemma TooFar(up: bool, s: State, x: int, y: int)
    requires Runaway(up, s, x, y) && x >= 0 && y >= 0 && x + y > 174762
    ensures Overflows(up, s)
  {
    AtLimitWrapsIff(s);
    MovingOverflows(up, s, A_LIMIT, A_LIMIT, x, y);
    hide Wraps, Overflows;
  }

  /** From at codes on, no codes keep a runaway state from overflowing: at rung i, what is left of the ladder is
      enough. */
  lemma {:induction false} Overtakes(up: bool, codes: seq<Code>, at: nat, i: nat)
    requires i <= RUNGS && at + RUNGS - i <= |codes|
    requires Runaway(up, Reached(codes[..at]), LADDER[i + 1], LADDER[i])
    ensures OverflowsWithin(up, codes, at + RUNGS - i)
    decreases RUNGS - i
  {
    hide Inv, Overflows, Moving, Reached, LADDER, Kept, Lifted;
    TopRung();
    if i == RUNGS {
      InvIsShaped(Reached(codes[..at]));
      TooFar(up, Reached(codes[..at]), LADDER[i + 1], LADDER[i]);
    } else {
      Rung(i);
      MovingOn(up, codes, at, A_LIMIT, A_LIMIT, LADDER[i + 1], LADDER[i], LADDER[i + 2]);
      if !OverflowsWithin(up, codes, at) {
        Overtakes(up, codes, at + 1, i + 1);
      }
    }
  }

  lemma FirstRungs()
    ensures LADDER[0] == LADDER[1] == 110
  {
  }

  lemma LiftNumbers()
    ensures Lifted(A_LIMIT, A_LIMIT, 0, 0, 52) && Lifted(A_LIMIT, A_LIMIT, 52, 0, 91)
    ensures Lifted(A_LIMIT, A_LIMIT, 91, 52, 110) && Lifted(A_LIMIT, A_LIMIT, 110, 91, 110)
    ensures Lifted(A_LIMIT, A_LIMIT, 52, 52, 110) && Lifted(A_LIMIT, A_LIMIT, 110, 52, 110)
    ensures Raised(A_LIMIT) == A_LIMIT
  {
  }

  /** At the limit, four lifts in a row are enough: the sum overflows within the next 38 codes, whatever they are. */
  lemma FourLiftsRunAway(up: bool, codes: seq<Code>, at: nat)
    requires at + 42 <= |codes| && Runaway(up, Reached(codes[..at]), 0, 0)
    requires forall k :: at <= k < at + 4 ==> LiftsAt(up, codes, k)
    ensures OverflowsWithin(up, codes, at + 42)
  {
    hide Moving, Reached, LADDER, Kept, Lifted, Lifts, Raised, Overflows;
    LiftNumbers();
    FirstRungs();
    if !OverflowsWithin(up, codes, at + 42) {
      MovingOn(up, codes, at, A_LIMIT, A_LIMIT, 0, 0, 52);
      MovingOn(up, codes, at + 1, A_LIMIT, A_LIMIT, 52, 0, 91);
      MovingOn(up, codes, at + 2, A_LIMIT, A_LIMIT, 91, 52, 110);
      MovingOn(up, codes, at + 3, A_LIMIT, A_LIMIT, 110, 91, 110);
      Overtakes(up, codes, at + 4, 0);
    }
  }

  lemma TwoLiftsRunAway(up: bool, codes: seq<Code>, at: nat)
    requires at + 40 <= |codes| && Runaway(up, Reached(codes[..at]), 52, 52)
    requires LiftsAt(up, codes, at) && LiftsAt(up, codes, at + 1)
    ensures OverflowsWithin(up, codes, at + 40)
  {
    hide Moving, Reached, LADDER, Kept, Lifted, Lifts, Raised, Overflows;
    LiftNumbers();
    FirstRungs();
    if !OverflowsWithin(up, codes, at + 40) {
      MovingOn(up, codes, at, A_LIMIT, A_LIMIT, 52, 52, 110);
      MovingOn(up, codes, at + 1, A_LIMIT, A_LIMIT, 110, 52, 110);
      Overtakes(up, codes, at + 2, 0);
    }
  }

  // ----- what gets it there, from anywhere --------------------------------------------------

  function RaisedBy(p: int, n: nat): int { if p + 192 * n > A_LIMIT then A_LIMIT else p + 192 * n }

  /** The last two reconstructions lie on one side, and the coefficients are at least p. */
  predicate Facing(up: bool, s: State, p: int) {
    && Inv(s) && s.pk == [SignOf(up), SignOf(up)] && s.a[0] >= p && s.a[1] >= p
    && Sign(s.sr[0]) == Sign(s.sr[1]) == SignOf(up)
  }

  ghost predicate OnSideAt(up: bool, codes: seq<Code>, k: nat)
    requires k < |codes|
  {
    Sign(Reconstructed(Reached(codes[..k]), codes[k])) == SignOf(up)
  }

  lemma FacingStep(up: bool, s: State, code: Code, p: int)
    requires Facing(up, s, p) && Sign(Reconstructed(s, code)) == SignOf(up)
    ensures Facing(up, Next(s, code), RaisedBy(p, 1))
  {
    hide Reconstructed, Inv;
    SideStep(up, s, code);
  }

  lemma AnyStep(s: State, code: Code)
    requires Inv(s)
    ensures var t := Next(s, code);
            Inv(t) && t.pk == [Sign(Reconstructed(s, code)), s.pk[0]] && t.sr == [Reconstructed(s, code), s.sr[0]]
  {
    hide Reconstructed, Inverse, BStep, AStep, Y32;
  }

  lemma TwoOnSide(up: bool, codes: seq<Code>, at: nat)
    requires at + 2 <= |codes| && OnSideAt(up, codes, at) && OnSideAt(up, codes, at + 1)
    ensures Facing(up, Reached(codes[..at + 2]), -A_LIMIT)
  {
    hide Reached, Reconstructed, Next;
    AnyStep(Reached(codes[..at]), codes[at]);
    ReachedSnoc(codes, at);
    AnyStep(Reached(codes[..at + 1]), codes[at + 1]);
    ReachedSnoc(codes, at + 1);
  }

  lemma {:induction false} Faces(up: bool, codes: seq<Code>, at: nat, p: int, n: nat)
    requires at + n <= |codes| && Facing(up, Reached(codes[..at]), p)
    requires forall k :: at <= k < at + n ==> OnSideAt(up, codes, k)
    ensures Facing(up, Reached(codes[..at + n]), RaisedBy(p, n))
    decreases n
  {
    hide Facing, Reached, Next, Reconstructed, Inv;
    if n == 0 {
      FacingBounded(up, Reached(codes[..at]), p);
    } else {
      Faces(up, codes, at, p, n - 1);
      var k := at + n - 1;
      assert OnSideAt(up, codes, k);
      FacingStep(up, Reached(codes[..k]), codes[k], RaisedBy(p, n - 1));
      ReachedSnoc(codes, k);
      assert RaisedBy(RaisedBy(p, n - 1), 1) == RaisedBy(p, n);
    }
  }

  lemma FacingBounded(up: bool, s: State, p: int)
    requires Facing(up, s, p)
    ensures p <= A_LIMIT
  {
  }

  lemma FacingAtLimit(up: bool, s: State)
    requires Facing(up, s, A_LIMIT)
    ensures Runaway(up, s, 0, 0)
  {
  }

  /** Whatever came before: once 130 reconstructions in a row lie on one side and four codes lift it further, the sum
      overflows within the next 38 codes, whatever they are. */
  lemma AnyStateRunsAway(up: bool, codes: seq<Code>, at: nat)
    requires at + 172 <= |codes|
    requires forall k :: at <= k < at + 130 ==> OnSideAt(up, codes, k)
    requires forall k :: at + 130 <= k < at + 134 ==> LiftsAt(up, codes, k)
    ensures OverflowsWithin(up, codes, at + 172)
  {
    hide Facing, Reached, Moving, OnSideAt, LiftsAt, OverflowsWithin;
    TwoOnSide(up, codes, at);
    Faces(up, codes, at + 2, -A_LIMIT, 128);
    FacingAtLimit(up, Reached(codes[..at + 130]));
    FourLiftsRunAway(up, codes, at + 130);
  }

  // ----- what gets it there, from the start -------------------------------------------------

  lemma LiftsTo52(p: int, q: int, x: int, y: int)
    requires p >= 0 && q >= 0 && x >= 0 && y >= 0
    ensures Lifted(p, q, x, y, 52)
  {
    assert p * x >= 0 && q * y >= 0;
  }

  function Least(n: nat): int { if n == 0 then 0 else 52 }

  lemma {:induction false} WarmsUp(up: bool, codes: seq<Code>, at: nat, p: int, q: int, n: nat)
    requires at + n <= |codes| && 0 <= p <= A_LIMIT && 0 <= q <= A_LIMIT
    requires Moving(up, Reached(codes[..at]), p, q, 0, 0)
    requires forall k :: at <= k < at + n ==> LiftsAt(up, codes, k)
    ensures OverflowsWithin(up, codes, at + n)
            || Moving(up, Reached(codes[..at + n]), RaisedBy(p, n), RaisedBy(q, n), Least(n),
                      if n == 0 then 0 else Least(n - 1))
    decreases n
  {
    hide Moving, Reached, Lifts, Lifted, Kept, Overflows;
    if n > 0 {
      WarmsUp(up, codes, at, p, q, n - 1);
      if !OverflowsWithin(up, codes, at + n - 1) {
        var x, y := Least(n - 1), if n == 1 then 0 else Least(n - 2);
        LiftsTo52(RaisedBy(p, n - 1), RaisedBy(q, n - 1), x, y);
        MovingOn(up, codes, at + n - 1, RaisedBy(p, n - 1), RaisedBy(q, n - 1), x, y, 52);
      }
    }
  }

  /** At rest: nothing heard yet, or only silence. */
  predicate Calm(s: State, p: int) {
    Quiet(s) && s.pk == [0, 0] && s.a == [p, p]
  }

  lemma StartsCalm()
    ensures Calm(Reached([]), 0)
  {
  }

  lemma CalmMoves(s: State, p: int)
    requires Calm(s, p)
    ensures Moving(true, s, p, p, 0, 0)
  {
  }

  lemma QuietEstimate(s: State)
    requires Quiet(s)
    ensures Estimate(s) == 0 && Sez(s) == 0
  {
    DotOfZeros(s.b, s.dq, 6);
    DotOfZeros(s.a, s.sr, 2);
    hide Dot;
  }

  /** One step downwards, seen from the numbers alone. */
  lemma DownStep(s: State, code: Code)
    requires Inv(s) && !Wraps(s) && Lifts(false, s, code)
    ensures var sr, t := Reconstructed(s, code), Next(s, code);
            && Inv(t) && t.sr == [sr, s.sr[0]] && Estimate(s) == Plain(s) / 16384
            && (sr <= -110 || sr == Estimate(s) - DQ_LIMIT)
            && (sr < 0 ==> t.pk == [1, s.pk[0]] && t.a == [AStep(s.a[0], s.pk[0], 1), AStep(s.a[1], s.pk[1], 1)])
  {
    EstimateUnlessWraps(s);
    ReconstructionIs(s, code);
    hide Reconstructed, Estimate, Inverse, Plain, Wraps, BStep, AStep, Y32;
  }

  lemma SmallPlain(s: State)
    requires Inv(s) && Abs(s.sr[0]) <= 200 && Abs(s.sr[1]) <= 200
    ensures !Wraps(s)
    ensures var n := s.a[0] * s.sr[0] + s.a[1] * s.sr[1]; n - 318 <= Plain(s) <= n + 317
  {
    SmallPastNeverWraps(s);
    SezBounded(s);
    PlainIs(s);
    hide Sez, Wraps, Plain;
  }

  /** The first step down from rest costs both coefficients 192. */
  lemma FirstDown(s: State, code: Code, p: int)
    requires Calm(s, p) && 0 <= p && Lifts(false, s, code)
    ensures var t := Next(s, code);
            Inv(t) && t.pk == [1, 0] && t.a == [p - 192, p - 192] && t.sr == [-53, 0]
  {
    QuietEstimate(s);
    SmallPlain(s);
    hide Estimate, Wraps, Plain, Reconstructed;
    DownStep(s, code);
  }

  lemma SecondDown(s: State, code: Code, p: int)
    requires Inv(s) && s.pk == [1, 0] && s.a == [p - 192, p - 192] && s.sr == [-53, 0] && 0 <= p <= A_LIMIT
    requires Lifts(false, s, code)
    ensures var t := Next(s, code);
            && Inv(t) && t.pk == [1, 1] && t.a == [p, p - 384]
            && t.sr[1] == -53 && (p == 0 ==> t.sr[0] == -53) && (p == A_LIMIT ==> t.sr[0] <= -92)
  {
    SmallPlain(s);
    hide Estimate, Wraps, Plain, Reconstructed;
    DownStep(s, code);
  }

  lemma ThirdDown(s: State, code: Code)
    requires Inv(s) && s.pk == [1, 1] && s.a == [0, -384] && s.sr == [-53, -53] && Lifts(false, s, code)
    ensures var t := Next(s, code); Inv(t) && t.pk == [1, 1] && t.a == [192, -192] && t.sr == [-52, -53]
  {
    SmallPlain(s);
    hide Estimate, Wraps, Plain, Reconstructed;
    DownStep(s, code);
  }

  lemma FourthDown(s: State, code: Code)
    requires Inv(s) && s.pk == [1, 1] && s.a == [192, -192] && s.sr == [-52, -53] && Lifts(false, s, code)
    ensures var t := Next(s, code); Inv(t) && t.pk == [1, 1] && t.a == [384, 0] && t.sr[0] <= -53 && t.sr[1] == -52
  {
    SmallPlain(s);
    hide Estimate, Wraps, Plain, Reconstructed;
    DownStep(s, code);
  }

  /** Four lifts down from silence that has raised the coefficients to their limit: they end in a runaway, although the
      change of sides has cost some of that. */
  lemma DownFromSilence(codes: seq<Code>, at: nat)
    requires at + 4 <= |codes| && Calm(Reached(codes[..at]), A_LIMIT)
    requires forall k :: at <= k < at + 4 ==> LiftsAt(false, codes, k)
    ensures OverflowsWithin(false, codes, at + 4) || Runaway(false, Reached(codes[..at + 4]), 110, 110)
  {
    hide Reached, Lifts, Next, Calm, Overflows, Lifted, Kept;
    assert LiftsAt(false, codes, at) && LiftsAt(false, codes, at + 1);
    FirstDown(Reached(codes[..at]), codes[at], A_LIMIT);
    ReachedSnoc(codes, at);
    SecondDown(Reached(codes[..at + 1]), codes[at + 1], A_LIMIT);
    ReachedSnoc(codes, at + 1);
    DownNumbers();
    assert Moving(false, Reached(codes[..at + 2]), A_LIMIT, A_LIMIT - 384, 92, 53);
    hide Moving, Inv;
    MovingOn(false, codes, at + 2, A_LIMIT, A_LIMIT - 384, 92, 53, 110);
    if !OverflowsWithin(false, codes, at + 4) {
      MovingOn(false, codes, at + 3, A_LIMIT, A_LIMIT - 192, 110, 92, 110);
    }
  }

  lemma DownNumbers()
    ensures Lifted(A_LIMIT, A_LIMIT - 384, 92, 53, 110) && Lifted(A_LIMIT, A_LIMIT - 192, 110, 92, 110)
  {
  }

  lemma DownFromTheStart(codes: seq<Code>)
    requires 4 <= |codes| && forall k :: 0 <= k < 4 ==> LiftsAt(false, codes, k)
    ensures Moving(false, Reached(codes[..4]), 384, 0, 0, 0)
  {
    StartsCalm();
    hide Reached, Lifts, Next, Calm;
    assert codes[..0] == [];
    assert LiftsAt(false, codes, 0) && LiftsAt(false, codes, 1) && LiftsAt(false, codes, 2) && LiftsAt(false, codes, 3);
    FirstDown(Reached(codes[..0]), codes[0], 0);
    ReachedSnoc(codes, 0);
    SecondDown(Reached(codes[..1]), codes[1], 0);
    ReachedSnoc(codes, 1);
    ThirdDown(Reached(codes[..2]), codes[2]);
    ReachedSnoc(codes, 2);
    FourthDown(Reached(codes[..3]), codes[3]);
    ReachedSnoc(codes, 3);
  }

  /** How many lifts it takes from the start: going down costs four more, because the first sign remembered is plus. */
  function Needed(up: bool): nat { if up then 66 else 70 }

  /** That many lifts in a row in one direction, and the sum overflows within the next 38 codes, whatever they are. */
  lemma LiftsRunAway(up: bool, codes: seq<Code>)
    requires |codes| >= Needed(up) + 38 && forall k :: 0 <= k < Needed(up) ==> LiftsAt(up, codes, k)
    ensures OverflowsWithin(up, codes, Needed(up) + 38)
  {
    hide Reached, Lifts, Moving, Overflows;
    var at := Needed(up) - 66;
    if up {
      StartsCalm();
      CalmMoves(Reached([]), 0);
      assert codes[..0] == [];
      WarmsUp(up, codes, 0, 0, 0, 64);
    } else {
      DownFromTheStart(codes);
      WarmsUp(up, codes, 4, 384, 0, 64);
    }
    if !OverflowsWithin(up, codes, Needed(up) + 38) {
      TwoLiftsRunAway(up, codes, at + 64);
    }
  }

  // ----- the encoder and the decoder --------------------------------------------------------

  lemma LoudSampleLifts(up: bool, s: State, sample: int16)
    requires Inv(s) && Toward(up, sample) >= 179
    ensures Lifts(up, s, Coded(s, sample))
  {
    TracksWithoutOvershoot(s, sample);
    hide Inv, Estimate, Reconstructed, Coded;
  }

  lemma {:induction false} CodeAt(s: State, pcm: seq<int16>, k: nat)
    requires Inv(s) && k < |pcm|
    ensures var codes := Codes(s, pcm); codes[k] == Coded(Run(s, codes[..k]), pcm[k])
    decreases k
  {
    hide Inv, Coded, Next;
    var codes := Codes(s, pcm);
    var t := Next(s, codes[0]);
    assert codes[1..] == Codes(t, pcm[1..]);
    if k > 0 {
      CodeAt(t, pcm[1..], k - 1);
      assert codes[..k][1..] == codes[1..][..k - 1];
    }
  }

  lemma {:induction false} OutputAt(s: State, codes: seq<Code>, k: nat)
    requires Inv(s) && k < |codes|
    ensures Outputs(s, codes)[k] == Output(Run(s, codes[..k]), codes[k])
    decreases k
  {
    hide Inv, Output, Next;
    if k > 0 {
      OutputAt(Next(s, codes[0]), codes[1..], k - 1);
      assert codes[..k][1..] == codes[1..][..k - 1];
    }
  }

  lemma EncodedAt(pcm: seq<int16>, k: nat)
    requires k < |pcm|
    ensures var codes := EncodedFrom(pcm); codes[k] == Coded(Reached(codes[..k]), pcm[k])
  {
    InitialIsFine();
    hide Inv, Coded, Run, Codes;
    CodeAt(INITIAL, pcm, k);
  }

  lemma DecodedAt(codes: seq<Code>, k: nat)
    requires k < |codes|
    ensures Decoded(codes)[k] == Output(Reached(codes[..k]), codes[k])
  {
    InitialIsFine();
    hide Inv, Output, Run, Outputs;
    OutputAt(INITIAL, codes, k);
  }

  /** Where the estimate overflows, the decoder puts out the sample at the opposite end of the scale. */
  lemma OverflowIsHeard(up: bool, codes: seq<Code>, n: nat)
    requires |codes| > n && OverflowsWithin(up, codes, n)
    ensures exists k :: 0 <= k <= n && Decoded(codes)[k] == Flipped(up)
  {
    hide Decoded, Output, Reached, Plain;
    var k :| 0 <= k <= n && Overflows(up, Reached(codes[..k]));
    var s := Reached(codes[..k]);
    WrapsIffTooLarge(s);
    WrapFlipsTheSample(s, codes[k]);
    DecodedAt(codes, k);
  }

  function Flipped(up: bool): int16 { if up then -32768 else 32767 }

  /** Any recording that begins with 66 samples of 179 or more, or 70 of -179 or less, nine milliseconds of a half wave,
      drives encoder and decoder into overflow: a sample soon comes out at the opposite end, whatever follows. */
  lemma HalfWaveRunsAway(up: bool, pcm: seq<int16>)
    requires |pcm| > Needed(up) + 38 && forall k :: 0 <= k < Needed(up) ==> Toward(up, pcm[k]) >= 179
    ensures exists k :: 0 <= k <= Needed(up) + 38 && Decoded(EncodedFrom(pcm))[k] == Flipped(up)
  {
    hide Lifts, OverflowsWithin, Decoded, EncodedFrom, Reached, Coded, Inv, Needed;
    var codes := EncodedFrom(pcm);
    forall k | 0 <= k < Needed(up) ensures LiftsAt(up, codes, k) {
      EncodedAt(pcm, k);
      LoudSampleLifts(up, Reached(codes[..k]), pcm[k]);
    }
    LiftsRunAway(up, codes);
    OverflowIsHeard(up, codes, Needed(up) + 38);
  }

  lemma CalmStep(s: State, p: int)
    requires Calm(s, p) && p <= A_LIMIT
    ensures Coded(s, 0) == 0 && Calm(Next(s, 0), RaisedBy(p, 1))
  {
    QuietStays(s);
    QuietEstimate(s);
    hide Estimate, Coded, Output;
    assert Inverse(0, INITIAL_YU) == 0;
    hide Inverse;
    assert Reconstructed(s, 0) == 0;
    SideStep(true, s, 0);
  }

  /** Silence alone raises both coefficients to their limit. */
  lemma {:induction false} SilenceArms(pcm: seq<int16>, n: nat)
    requires n <= |pcm| && forall k :: 0 <= k < n ==> pcm[k] == 0
    ensures Calm(Reached(EncodedFrom(pcm)[..n]), RaisedBy(0, n))
    decreases n
  {
    hide Reached, EncodedFrom, Calm, Coded, Next;
    var codes := EncodedFrom(pcm);
    if n == 0 {
      StartsCalm();
      assert codes[..0] == [];
    } else {
      SilenceArms(pcm, n - 1);
      CalmStep(Reached(codes[..n - 1]), RaisedBy(0, n - 1));
      EncodedAt(pcm, n - 1);
      ReachedSnoc(codes, n - 1);
      assert RaisedBy(RaisedBy(0, n - 1), 1) == RaisedBy(0, n);
    }
  }

  /** After eight milliseconds of silence, however long it lasts, four samples of 179 or more, or four of -179 or less,
      are enough, whatever follows. */
  lemma FourSamplesRunAway(up: bool, pcm: seq<int16>, n: nat)
    requires 64 <= n && n + 42 < |pcm| && forall k :: 0 <= k < n ==> pcm[k] == 0
    requires forall k :: n <= k < n + 4 ==> Toward(up, pcm[k]) >= 179
    ensures exists k :: 0 <= k <= n + 42 && Decoded(EncodedFrom(pcm))[k] == Flipped(up)
  {
    hide Lifts, Decoded, EncodedFrom, Reached, Coded, Inv, Calm, Overflows;
    var codes := EncodedFrom(pcm);
    SilenceArms(pcm, n);
    hide Moving, LADDER;
    forall k | n <= k < n + 4 ensures LiftsAt(up, codes, k) {
      EncodedAt(pcm, k);
      LoudSampleLifts(up, Reached(codes[..k]), pcm[k]);
    }
    if up {
      CalmMoves(Reached(codes[..n]), A_LIMIT);
      FourLiftsRunAway(up, codes, n);
    } else {
      DownFromSilence(codes, n);
      FirstRungs();
      if !OverflowsWithin(up, codes, n + 4) {
        Overtakes(up, codes, n + 4, 0);
      }
    }
    OverflowIsHeard(up, codes, n + 42);
  }

  /** The codes 7 and 15 go as far as a code can, up and down. */
  function Extreme(up: bool): Code { if up then 7 else 15 }

  lemma ExtremeLifts(up: bool, s: State)
    requires Inv(s)
    ensures Lifts(up, s, Extreme(up))
  {
    ReconstructionIs(s, Extreme(up));
    hide Estimate, Reconstructed;
    assert Inverse(7, INITIAL_YU) == DQ_LIMIT && Inverse(15, INITIAL_YU) == -DQ_LIMIT;
  }

  /** So is a stream that begins with 66 codes 7, thirty-three bytes 0x77, or 70 codes 15, thirty-five bytes 0xFF. */
  lemma ExtremeCodesRunAway(up: bool, codes: seq<Code>)
    requires |codes| > Needed(up) + 38 && forall k :: 0 <= k < Needed(up) ==> codes[k] == Extreme(up)
    ensures exists k :: 0 <= k <= Needed(up) + 38 && Decoded(codes)[k] == Flipped(up)
  {
    hide Lifts, OverflowsWithin, Decoded, Reached, Inv, Needed, Extreme;
    forall k | 0 <= k < Needed(up) ensures LiftsAt(up, codes, k) {
      ExtremeLifts(up, Reached(codes[..k]));
    }
    LiftsRunAway(up, codes);
    OverflowIsHeard(up, codes, Needed(up) + 38);
  }
}
