/** How much damage to a YSF header the receiver repairs, exactly: which two inverted channel bits are too many, and
    that three can be (ysf_bridge/ysf_codec.go, ysf_bridge/ysf_protocol.go). */
module FichRepair {
  import opened Bits
  import opened Trellis
  import opened MinimumDistance
  import opened Viterbi
  import opened Fich
  import Crc
  import Golay

  // ----- a header is accepted exactly when its data bits survive ----------------------------

  /** The survivor agrees with the run that was sent in all data bits. */
  predicate DataSurvives(fich: seq<byte>, hit: seq<byte>)
    requires |fich| >= 6 && |hit| == FICH_BYTES
  {
    Survivor(Received(hit), 0)[4..100] == Run(fich)[4..100]
  }

  lemma AcceptedIffDataSurvives(fich: seq<byte>, flips: set<nat>, hit: seq<byte>)
    requires |fich| >= 6 && Damaged(Encode(fich), flips, hit) && |flips| <= 3
    ensures Accepts(hit) <==> DataSurvives(fich, hit)
  {
    hide Encode, Damaged, CodedBytes, Fields, WordAt, Checked, Survivor, Received, Run, ReadBit, Crc.Checks, Pack;
    var d, c := Decoded(hit), CodedBytes(Checked(fich))[..12];
    var bits := Survivor(Received(hit), 0)[4..100];
    DecodedAfterDamage(fich, flips, hit);
    FieldsOfCodedBytes(Checked(fich));
    CheckedChecks(fich);
    UnpackPack(bits);
    DataOfRun(fich);
    if Accepts(hit) {
      FirstWordNoticed(d, c);
      assert Unpack(d) == bits == Unpack(c);
    } else if DataSurvives(fich, hit) {
      UnpackInjective(d, c);
    }
  }

  lemma CheckedChecks(fich: seq<byte>)
    requires |fich| >= 6
    ensures Crc.Checks(Checked(fich))
  {
    hide Crc.Checks, Crc.WithCrc;
    Crc.WithCrcChecks(fich[..6]);
  }

  lemma FlipsAreBits(air: seq<byte>, flips: set<nat>, hit: seq<byte>)
    requires Damaged(air, flips, hit)
    ensures forall p :: p in flips ==> p < FICH_BITS
  {
  }

  lemma DataOfRun(fich: seq<byte>)
    requires |fich| >= 6
    ensures Run(fich)[4..100] == Unpack(CodedBytes(Checked(fich))[..12])
  {
    hide CodedBytes, Checked, ReadBit;
    var c := CodedBytes(Checked(fich));
    assert forall i :: 0 <= i < 12 ==> c[..12][i] == c[i];
    UnpackConcat(c[..12], c[12..]);
    assert c == c[..12] + c[12..];
    assert Run(fich)[4..100] == Unpack(c)[..96];
  }

  // ----- two runs and the damage between them ------------------------------------------------

  ghost function Differences(w: seq<bool>, v: seq<bool>): (d: set<nat>)
    requires |w| == |v| == FICH_SYMBOLS + 4
    ensures forall p :: p in d ==> p < FICH_BITS
  {
    set p | 0 <= p < FICH_BITS && ChannelBit(w, p) != ChannelBit(v, p)
  }

  /** Two runs differ in as many channel bits as their distance says. */
  lemma DifferencesAreDistance(w: seq<bool>, v: seq<bool>)
    requires |w| == |v| == FICH_SYMBOLS + 4
    ensures Damaged(Air(w), Differences(w, v), Air(v))
    ensures |Differences(w, v)| == Distance(w, Encoded(v))
  {
    hide Air, ChannelBit, ReadBit, Distance, ReceivedSymbol, Output;
    forall p | 0 <= p < FICH_BITS
      ensures ReadBit(Air(v), p) == (ReadBit(Air(w), p) != (p in Differences(w, v)))
    {
      AirBits(w, p);
      AirBits(v, p);
    }
    DistanceIsDamage(w, Differences(w, v), Air(v));
    forall i | 0 <= i < FICH_SYMBOLS
      ensures ReceivedSymbol(Air(v), i) == Output(v, i)
    {
      SentSymbol(v, i);
    }
    assert Received(Air(v)) == Encoded(v);
  }

  lemma SentSymbol(v: seq<bool>, i: nat)
    requires |v| == FICH_SYMBOLS + 4 && i < FICH_SYMBOLS
    ensures ReceivedSymbol(Air(v), i) == Output(v, i)
  {
    hide Air, Slot, Position, ReadBit, Output;
    SlotInvertsPosition(i);
    AirBits(v, Position(i));
    AirBits(v, Position(i) + 1);
  }

  /** How far what arrives is from another run: each flip moves it one closer or one away. */
  lemma DistanceFromOther(w: seq<bool>, v: seq<bool>, flips: set<nat>, hit: seq<byte>)
    requires |w| == |v| == FICH_SYMBOLS + 4 && Damaged(Air(w), flips, hit)
    ensures Distance(v, Received(hit)) == |Differences(w, v)| + |flips| - 2 * |Differences(w, v) * flips|
  {
    hide Air, ReadBit, Differences, Distance, Received;
    var all := Differences(w, v);
    var only, rest := all - flips, flips - all;
    DifferencesAreDistance(w, v);
    assert Damaged(Air(v), only + rest, hit);
    DistanceIsDamage(v, only + rest, hit);
    assert |only + rest| == |only| + |rest|;
    assert all == only + all * flips && flips == rest + all * flips;
  }

  // ----- the lightest differences that reach the data ---------------------------------------

  /** In which order the encoder sends the channel bits. */
  function Place(p: nat): nat
    requires p < FICH_BITS
  {
    2 * Slot(p) + p % 2
  }

  /** There are four ways to differ in the data bits by only four channel bits. They start like this, are silent after
      it, and their channel bits stand in these places. */
  const LIGHT: seq<seq<bool>> := [
    [false, true, true, false, true, false],
    [true, false, true, true, true, false],
    [false, false, true, true, false, true],
    [false, true, false, true, true, true]
  ]

  function Places(k: nat): set<nat>
    requires k < 4
  {
    if k == 0 then {4, 6, 8, 9} else if k == 1 then {2, 7, 8, 9} else if k == 2 then {6, 8, 10, 11} else {4, 9, 10, 11}
  }

  /** The last data bit, counted from 0, that the k-th of them changes. */
  function LastData(k: nat): nat { if k < 2 then 0 else 1 }

  function Light(k: nat): (d: seq<bool>)
    requires k < 4
    ensures |d| == FICH_SYMBOLS + 4
  {
    LIGHT[k] + seq(98, _ => false)
  }

  lemma LightOutput(k: nat, t: nat)
    requires k < 4 && t < FICH_SYMBOLS
    ensures Output(Light(k), t) == Symbol(2 * t in Places(k), 2 * t + 1 in Places(k))
  {
    var d := Light(k);
    if
    case k == 0 =>
    case k == 1 =>
    case k == 2 =>
    case k == 3 =>
  }

  lemma OutputOfDifference(w: seq<bool>, d: seq<bool>, t: nat)
    requires |w| == |d| && t + 4 < |w|
    ensures Output(Difference(w, d), t)
            == Symbol(Plus(Output(w, t).g1, Output(d, t).g1), Plus(Output(w, t).g2, Output(d, t).g2))
  {
  }

  lemma LightDifferences(w: seq<bool>, k: nat, p: nat)
    requires |w| == FICH_SYMBOLS + 4 && k < 4 && p < FICH_BITS
    ensures p in Differences(w, Difference(w, Light(k))) <==> Place(p) in Places(k)
  {
    hide Light, Slot, Places, Output;
    LightOutput(k, Slot(p));
    OutputOfDifference(w, Light(k), Slot(p));
  }

  lemma {:induction false} SilentTail(d: seq<bool>, k: nat, n: nat)
    requires k <= n && n + 4 <= |d| && forall j :: k <= j < |d| ==> !d[j]
    ensures Distance(d[..n + 4], Zeros(n)) == Distance(d[..k + 4], Zeros(k))
  {
    if k < n {
      SilentTail(d, k, n - 1);
      assert d[..n + 4][..n + 3] == d[..n + 3] && Zeros(n)[..n - 1] == Zeros(n - 1);
      assert Output(d[..n + 4], n - 1) == NONE;
    }
  }

  lemma OneStep(d: seq<bool>, n: nat)
    requires n + 5 <= |d|
    ensures Distance(d[..n + 5], Zeros(n + 1)) == Distance(d[..n + 4], Zeros(n)) + Cost(Output(d, n), NONE)
  {
    hide Cost;
    assert d[..n + 5][..n + 4] == d[..n + 4] && Zeros(n + 1)[..n] == Zeros(n);
  }

  /** The weight of a run that is silent from its seventh bit on. */
  lemma ShortWeight(d: seq<bool>)
    requires |d| == FICH_SYMBOLS + 4 && forall j :: 6 <= j < |d| ==> !d[j]
    ensures Distance(d, Zeros(FICH_SYMBOLS))
            == Cost(Output(d, 0), NONE) + Cost(Output(d, 1), NONE) + Cost(Output(d, 2), NONE)
               + Cost(Output(d, 3), NONE) + Cost(Output(d, 4), NONE) + Cost(Output(d, 5), NONE)
  {
    hide Cost, Output;
    SilentTail(d, 6, FICH_SYMBOLS);
    assert d[..104] == d;
    OneStep(d, 5);
    OneStep(d, 4);
    OneStep(d, 3);
    OneStep(d, 2);
    OneStep(d, 1);
    OneStep(d, 0);
    assert Distance(d[..4], Zeros(0)) == 0;
  }

  /** Each of the four has weight four and ends in state 0, */
  lemma LightIsLight(k: nat)
    requires k < 4
    ensures Distance(Light(k), Zeros(FICH_SYMBOLS)) == 4
    ensures var d, m := Light(k), 4 + LastData(k); d[m] && forall j :: m < j < |d| ==> !d[j]
  {
    ShortWeight(Light(k));
    hide Distance;
    if
    case k == 0 =>
    case k == 1 =>
    case k == 2 =>
    case k == 3 =>
  }

  /** and there is no other way. */
  lemma OnlyLight(d: seq<bool>, m: nat) returns (k: nat)
    requires |d| == FICH_SYMBOLS + 4 && 4 <= m < 6 && d[m] && forall j :: m < j < |d| ==> !d[j]
    requires Distance(d, Zeros(FICH_SYMBOLS)) == 4
    ensures k < 4 && d == Light(k) && m == 4 + LastData(k)
  {
    ShortWeight(d);
    hide Distance;
    k := if m == 4 then if d[0] then 1 else 0 else if d[1] then 3 else 2;
    assert d[..6] == LIGHT[k];
    assert d == d[..6] + seq(98, _ => false);
  }

  // ----- which two flips are too many -------------------------------------------------------

  /** Both flips lie on the k-th of the lightest differences, and the sent run has a zero where that one ends: the
      decoder, which breaks ties towards ones, takes the other run. */
  predicate Lost(w: seq<bool>, p: nat, q: nat, k: nat)
    requires |w| == FICH_SYMBOLS + 4 && p < FICH_BITS && q < FICH_BITS && k < 4
  {
    !w[4 + LastData(k)] && Place(p) in Places(k) && Place(q) in Places(k)
  }

  /** The run that differs from w in the k-th way is as close as w to what arrives, if both flips lie on it. */
  lemma OtherRun(w: seq<bool>, p: nat, q: nat, hit: seq<byte>, k: nat)
    requires |w| == FICH_SYMBOLS + 4 && EndState(w) == 0 && p < q && k < 4
    requires Damaged(Air(w), {p, q}, hit) && Place(p) in Places(k) && Place(q) in Places(k)
    ensures EndState(Difference(w, Light(k))) == 0
    ensures Distance(Difference(w, Light(k)), Received(hit)) == 2
  {
    hide Air, ReadBit, Differences, Distance, Received, Light, EndState, Places, Place, Damaged;
    FlipsAreBits(Air(w), {p, q}, hit);
    var d := Light(k);
    var v := Difference(w, d);
    LightIsLight(k);
    EndsInZero(w);
    EndsInZero(v);
    assert Difference(w, v) == d;
    Linear(w, v);
    DifferencesAreDistance(w, v);
    LightDifferences(w, k, p);
    LightDifferences(w, k, q);
    DistanceFromOther(w, v, {p, q}, hit);
    assert Differences(w, v) * {p, q} == {p, q};
    assert |{p, q}| == 2;
  }

  /** If the flips are lost, the survivor is wrong in the data. */
  lemma LostIsLost(w: seq<bool>, p: nat, q: nat, hit: seq<byte>, k: nat)
    requires |w| == FICH_SYMBOLS + 4 && EndState(w) == 0 && p < q && k < 4
    requires Damaged(Air(w), {p, q}, hit) && Lost(w, p, q, k)
    ensures Survivor(Received(hit), 0)[4..100] != w[4..100]
  {
    hide Air, Differences, Distance, Received, Light, EndState, Places, Place, Survivor, Metrics, Damaged;
    var r := Received(hit);
    var u, v := Difference(w, Light(k)), Survivor(r, 0);
    OtherRun(w, p, q, hit, k);
    LightIsLight(k);
    SurvivorAttains(r, 0);
    MetricIsLowerBound(r, u);
    EndsInZero(v);
    EndsInZero(u);
    var m := 4 + LastData(k);
    if v[4..100] == w[4..100] {
      SameData(v, w);
      var e := Difference(v, u);
      var j := LastSetBit(e, m);
      assert j == m;
      Triangle(v, u, r);
      Linear(v, u);
      WeightByLastBit(e, m);
      SameAfter(v, u, m);
      TiesGoToOnes(r, u, m);
    }
  }

  lemma SameData(v: seq<bool>, w: seq<bool>)
    requires |v| == |w| >= 100 && v[4..100] == w[4..100]
    ensures forall j :: 4 <= j < 100 ==> v[j] == w[j]
  {
    forall j | 4 <= j < 100
      ensures v[j] == w[j]
    {
      assert v[j] == v[4..100][j - 4] && w[j] == w[4..100][j - 4];
    }
  }

  /** If the survivor is wrong in the data, the flips are lost. */
  lemma OnlyLostIsLost(w: seq<bool>, p: nat, q: nat, hit: seq<byte>) returns (k: nat)
    requires |w| == FICH_SYMBOLS + 4 && EndState(w) == 0 && p < q && Damaged(Air(w), {p, q}, hit)
    requires Survivor(Received(hit), 0)[4..100] != w[4..100]
    ensures k < 4 && p < FICH_BITS && q < FICH_BITS && Lost(w, p, q, k)
  {
    hide Air, Differences, Distance, Received, Light, EndState, Places, Place, Survivor, Metrics, Damaged;
    FlipsAreBits(Air(w), {p, q}, hit);
    var r := Received(hit);
    var v := Survivor(r, 0);
    var d := Difference(v, w);
    SurvivorAttains(r, 0);
    MetricIsLowerBound(r, w);
    DistanceIsDamage(w, {p, q}, hit);
    EndsInZero(v);
    EndsInZero(w);
    var i :| 4 <= i < 100 && v[i] != w[i];
    var m := LastSetBit(d, i);
    Triangle(v, w, r);
    Linear(v, w);
    WeightByLastBit(d, m);
    SameAfter(v, w, m);
    TiesGoToOnes(r, w, m);
    k := OnlyLight(d, m);
    assert v == Difference(w, d);
    Linear(w, v);
    assert Difference(w, v) == d;
    DifferencesAreDistance(w, v);
    DistanceFromOther(w, v, {p, q}, hit);
    BothCommon(Differences(w, v), p, q);
    LightDifferences(w, k, p);
    LightDifferences(w, k, q);
  }

  lemma BothCommon(s: set<nat>, p: nat, q: nat)
    requires p != q && |s * {p, q}| == 2
    ensures p in s && q in s
  {
    assert s * {p, q} == (if p in s then {p} else {}) + (if q in s then {q} else {});
  }

  lemma SameAfter(v: seq<bool>, w: seq<bool>, m: nat)
    requires |v| == |w| && forall j :: m < j < |v| ==> !Difference(v, w)[j]
    ensures forall j :: m < j < |v| ==> v[j] == w[j]
  {
    forall j | m < j < |v|
      ensures v[j] == w[j]
    {
      assert !Difference(v, w)[j];
    }
  }

  /** Two inverted channel bits p and q of a header are too many exactly when both lie on one of the first two light
      differences and the first bit of the header is zero, or on one of the last two and its second bit is zero. */
  predicate TooMany(fich: seq<byte>, p: nat, q: nat)
    requires |fich| >= 6 && p < FICH_BITS && q < FICH_BITS
  {
    exists k :: 0 <= k < 4 && !ReadBit(fich, LastData(k)) && Place(p) in Places(k) && Place(q) in Places(k)
  }

  lemma HeaderBits(fich: seq<byte>)
    requires |fich| >= 6
    ensures Run(fich)[4] == ReadBit(fich, 0) && Run(fich)[5] == ReadBit(fich, 1)
  {
    hide CodedBytes, Checked;
    var c := CodedBytes(Checked(fich));
    FirstByteIsPlain(fich);
    assert Run(fich)[4] == ReadBit(c, 0) && Run(fich)[5] == ReadBit(c, 1);
  }

  lemma FirstByteIsPlain(fich: seq<byte>)
    requires |fich| >= 6
    ensures CodedBytes(Checked(fich))[0] == fich[0]
  {
    hide WordBytes, GroupHigh, GroupLow, Golay.Encode24, Golay.Data;
    var work := Checked(fich);
    assert work[0] == fich[0];
    GroupsFit(work[0], work[1]);
    Golay.DecodesToData(GroupHigh(work[0], work[1]));
    TopByte(Golay.Encode24(GroupHigh(work[0], work[1])), work[0], work[1]);
  }

  lemma TopByte(c: bv32, x: byte, y: byte)
    requires Golay.Data(c) == GroupHigh(x, y)
    ensures WordBytes(c)[0] == x
  {
    assert ((c >> 12) & 0xFFF) >> 4 == (c >> 16) & 0xFF;
    assert GroupHigh(x, y) >> 4 == x as bv32;
  }

  /** Two inverted channel bits are repaired unless they are too many, in which case the header is rejected. */
  lemma TwoFlipsRepairedIff(fich: seq<byte>, p: nat, q: nat, hit: seq<byte>)
    requires |fich| >= 6 && p < q < FICH_BITS && Damaged(Encode(fich), {p, q}, hit)
    ensures Accepts(hit) <==> !TooMany(fich, p, q)
  {
    hide Air, Accepts, EndState, Places, Place, Survivor, Received, ReadBit, Damaged;
    AcceptedIffDataSurvives(fich, {p, q}, hit);
    RunEndsInZero(fich);
    HeaderBits(fich);
    hide Run;
    if !DataSurvives(fich, hit) {
      var k := OnlyLostIsLost(Run(fich), p, q, hit);
      assert TooMany(fich, p, q);
    }
    if TooMany(fich, p, q) {
      var k :| 0 <= k < 4 && !ReadBit(fich, LastData(k)) && Place(p) in Places(k) && Place(q) in Places(k);
      LostIsLost(Run(fich), p, q, hit, k);
    }
  }

  /** So only twelve of the two hundred channel bits matter, those of the first six symbols, and a header whose first
      two bits are ones survives any two flips. */
  lemma LateOrOnesSurviveTwo(fich: seq<byte>, p: nat, q: nat, hit: seq<byte>)
    requires |fich| >= 6 && p < q < FICH_BITS && Damaged(Encode(fich), {p, q}, hit)
    requires (ReadBit(fich, 0) && ReadBit(fich, 1)) || Place(p) >= 12 || Place(q) >= 12
    ensures Accepts(hit) && Fields(Decoded(hit)) == Checked(fich)
  {
    hide Accepts, Place, ReadBit, Damaged, Decoded, Fields, Checked, Air, Run, Places;
    TwoFlipsRepairedIff(fich, p, q, hit);
    DamageRepairedOrNoticed(fich, {p, q}, hit);
    if TooMany(fich, p, q) {
      var k :| 0 <= k < 4 && !ReadBit(fich, LastData(k)) && Place(p) in Places(k) && Place(q) in Places(k);
      PlacesAreEarly(k, Place(p));
      PlacesAreEarly(k, Place(q));
    }
  }

  lemma PlacesAreEarly(k: nat, x: nat)
    requires k < 4 && x in Places(k)
    ensures x < 12
  {
  }

  // ----- any number of flips, and three of them ---------------------------------------------

  /** The channel bits that a difference changes. */
  ghost function Touched(d: seq<bool>): set<nat>
    requires |d| == FICH_SYMBOLS + 4
  {
    set p | 0 <= p < FICH_BITS && ChannelBit(d, p)
  }

  /** How much further away a run is than the one that was sent, from which it differs by d. */
  ghost function Score(d: seq<bool>, flips: set<nat>): int
    requires |d| == FICH_SYMBOLS + 4
  {
    |Touched(d)| - 2 * |Touched(d) * flips|
  }

  /** m is the last bit that d changes, and d ends in state 0. */
  predicate LastsUntil(d: seq<bool>, m: nat) {
    |d| == FICH_SYMBOLS + 4 && m < FICH_SYMBOLS && d[m] && forall j :: m < j < |d| ==> !d[j]
  }

  /** Only the register bits before the first data bit differ. */
  predicate OnlyStart(e: seq<bool>) {
    |e| == FICH_SYMBOLS + 4 && forall j :: 4 <= j < |e| ==> !e[j]
  }

  /** The run that differs by d is closer than every run with the same data, or as close as the closest of them and the
      sent run has a zero where d ends: the decoder breaks ties towards ones. */
  ghost predicate Beats(w: seq<bool>, flips: set<nat>, d: seq<bool>, m: nat)
    requires |w| == FICH_SYMBOLS + 4 && LastsUntil(d, m)
  {
    forall e :: OnlyStart(e) ==>
                  Score(d, flips) < Score(e, flips) || (Score(d, flips) == Score(e, flips) && !w[m])
  }

  lemma TouchedIsDifferences(w: seq<bool>, d: seq<bool>)
    requires |w| == |d| == FICH_SYMBOLS + 4
    ensures Differences(w, Difference(w, d)) == Touched(d)
    ensures |Touched(d)| == Distance(d, Zeros(FICH_SYMBOLS))
  {
    hide Distance, Output, Slot, Air;
    var v := Difference(w, d);
    forall p | 0 <= p < FICH_BITS
      ensures p in Differences(w, v) <==> p in Touched(d)
    {
      OutputOfDifference(w, d, Slot(p));
    }
    DifferencesAreDistance(w, v);
    assert Difference(w, v) == d;
    Linear(w, v);
  }

  lemma DistanceIsScore(w: seq<bool>, d: seq<bool>, flips: set<nat>, hit: seq<byte>)
    requires |w| == |d| == FICH_SYMBOLS + 4 && Damaged(Air(w), flips, hit)
    ensures Distance(Difference(w, d), Received(hit)) == |flips| + Score(d, flips)
  {
    hide Air, Distance, Received, Touched, Differences, Damaged;
    TouchedIsDifferences(w, d);
    DistanceFromOther(w, Difference(w, d), flips, hit);
  }

  lemma OtherEnds(w: seq<bool>, d: seq<bool>)
    requires |w| == |d| == FICH_SYMBOLS + 4 && EndState(w) == 0 && forall j :: FICH_SYMBOLS <= j < |d| ==> !d[j]
    ensures EndState(Difference(w, d)) == 0
  {
    hide EndState;
    EndsInZero(w);
    EndsInZero(Difference(w, d));
  }

  lemma BackAgain(w: seq<bool>, v: seq<bool>)
    requires |w| == |v|
    ensures Difference(w, Difference(v, w)) == v
  {
  }

  /** What beats the sent run, for any number of flips: a survivor with other data does. */
  lemma SurvivorBeats(w: seq<bool>, flips: set<nat>, hit: seq<byte>) returns (d: seq<bool>, m: nat)
    requires |w| == FICH_SYMBOLS + 4 && EndState(w) == 0 && Damaged(Air(w), flips, hit)
    requires Survivor(Received(hit), 0)[4..100] != w[4..100]
    ensures 4 <= m && LastsUntil(d, m) && Beats(w, flips, d, m)
  {
    hide Air, Distance, Received, EndState, Survivor, Metrics, Damaged, Score;
    var r := Received(hit);
    var v := Survivor(r, 0);
    SurvivorAttains(r, 0);
    EndsInZero(v);
    EndsInZero(w);
    d := Difference(v, w);
    var i :| 4 <= i < 100 && v[i] != w[i];
    m := LastSetBit(d, i);
    BackAgain(w, v);
    DistanceIsScore(w, d, flips, hit);
    forall e | OnlyStart(e)
      ensures Score(d, flips) < Score(e, flips) || (Score(d, flips) == Score(e, flips) && !w[m])
    {
      var u := Difference(w, e);
      OtherEnds(w, e);
      DistanceIsScore(w, e, flips, hit);
      MetricIsLowerBound(r, u);
      if Score(d, flips) == Score(e, flips) {
        SameAfter(v, w, m);
        assert forall j :: 4 <= j < |w| ==> u[j] == w[j];
        TiesGoToOnes(r, u, m);
      }
    }
  }

  /** And where something does, the survivor has other data. */
  lemma BeatenIsLost(w: seq<bool>, flips: set<nat>, hit: seq<byte>, d: seq<bool>, m: nat)
    requires |w| == FICH_SYMBOLS + 4 && EndState(w) == 0 && Damaged(Air(w), flips, hit)
    requires 4 <= m && LastsUntil(d, m) && Beats(w, flips, d, m)
    ensures Survivor(Received(hit), 0)[4..100] != w[4..100]
  {
    hide Air, Distance, Received, EndState, Survivor, Metrics, Damaged, Score;
    var r := Received(hit);
    var v, u := Survivor(r, 0), Difference(w, d);
    if v[4..100] == w[4..100] {
      SurvivorAttains(r, 0);
      SameData(v, w);
      EndsInZero(v);
      EndsInZero(w);
      var e := Difference(v, w);
      assert OnlyStart(e);
      BackAgain(w, v);
      DistanceIsScore(w, e, flips, hit);
      DistanceIsScore(w, d, flips, hit);
      OtherEnds(w, d);
      MetricIsLowerBound(r, u);
      assert forall j :: m < j < |w| ==> u[j] == w[j] == v[j];
      assert u[m] != w[m] && v[m] == w[m];
      TiesGoToOnes(r, u, m);
    }
  }

  /** For any number of flips: the data bits survive unless something beats the run that was sent. */
  lemma DataSurvivesIff(fich: seq<byte>, flips: set<nat>, hit: seq<byte>)
    requires |fich| >= 6 && Damaged(Encode(fich), flips, hit)
    ensures DataSurvives(fich, hit) <==>
            !exists d, m :: 4 <= m && LastsUntil(d, m) && Beats(Run(fich), flips, d, m)
  {
    hide Air, EndState, Survivor, Received, Damaged, Beats;
    RunEndsInZero(fich);
    hide Run;
    var w := Run(fich);
    if !DataSurvives(fich, hit) {
      var d, m := SurvivorBeats(w, flips, hit);
    }
    if d, m :| 4 <= m && LastsUntil(d, m) && Beats(w, flips, d, m) {
      BeatenIsLost(w, flips, hit, d, m);
    }
  }

  lemma CommonAtMost(s: set<nat>, t: set<nat>)
    ensures |s * t| <= |t|
  {
    assert t == s * t + (t - s);
  }

  /** What beats the sent run after up to three flips is one of few: it costs at most two channel bits for each flip,
      and so changes nothing behind the first eight data bits. */
  lemma BeatsIsLight(w: seq<bool>, flips: set<nat>, d: seq<bool>, m: nat)
    requires |w| == FICH_SYMBOLS + 4 && |flips| <= 3 && 4 <= m && LastsUntil(d, m) && Beats(w, flips, d, m)
    ensures |Touched(d)| <= 2 * |flips| && m < 12
  {
    hide Distance, Touched, ChannelBit;
    var none := seq(FICH_SYMBOLS + 4, _ => false);
    assert OnlyStart(none);
    NothingTouched(none);
    CommonAtMost(Touched(d), flips);
    TouchedIsDifferences(w, d);
    WeightByLastBit(d, m);
  }

  lemma NothingTouched(none: seq<bool>)
    requires |none| == FICH_SYMBOLS + 4 && forall j :: 0 <= j < |none| ==> !none[j]
    ensures Touched(none) == {}
  {
    hide Slot;
  }

  /** The header after these flips is beyond repair: one of the differences that reach the first eight data bits beats
      the run that was sent. They are bit strings of length twelve, and what they are compared with are the sixteen of
      length four. */
  ghost predicate BeyondRepair(fich: seq<byte>, flips: set<nat>)
    requires |fich| >= 6
  {
    exists d, m :: 4 <= m < 12 && LastsUntil(d, m) && |Touched(d)| <= 2 * |flips| && Beats(Run(fich), flips, d, m)
  }

  /** Up to three inverted channel bits are repaired if and only if they are not beyond repair; else the header is
      rejected. */
  lemma ThreeFlipsRepairedIff(fich: seq<byte>, flips: set<nat>, hit: seq<byte>)
    requires |fich| >= 6 && Damaged(Encode(fich), flips, hit) && |flips| <= 3
    ensures Accepts(hit) <==> !BeyondRepair(fich, flips)
  {
    hide Air, Accepts, Damaged, Beats, Touched, Run, DataSurvives;
    AcceptedIffDataSurvives(fich, flips, hit);
    DataSurvivesIff(fich, flips, hit);
    forall d, m | 4 <= m && LastsUntil(d, m) && Beats(Run(fich), flips, d, m)
      ensures m < 12 && |Touched(d)| <= 2 * |flips|
    {
      BeatsIsLight(Run(fich), flips, d, m);
    }
  }

  /** So three flips are repaired wherever two of them are behind the first twelve symbols. */
  lemma LateFlipsSurviveThree(fich: seq<byte>, flips: set<nat>, hit: seq<byte>, p: nat, q: nat)
    requires |fich| >= 6 && Damaged(Encode(fich), flips, hit) && |flips| <= 3
    requires p != q && p in flips && q in flips && p < FICH_BITS && q < FICH_BITS && Place(p) >= 24 && Place(q) >= 24
    ensures Accepts(hit)
  {
    hide Accepts, Damaged, Air, Run, Beats, Touched, Place;
    ThreeFlipsRepairedIff(fich, flips, hit);
    if BeyondRepair(fich, flips) {
      var w := Run(fich);
      var d, m :| 4 <= m < 12 && LastsUntil(d, m) && |Touched(d)| <= 2 * |flips| && Beats(w, flips, d, m);
      TouchedAreEarly(d, m, p);
      TouchedAreEarly(d, m, q);
      BeatsNeedsTwo(w, flips, d, m);
      OneLeft(Touched(d), flips, p, q);
    }
  }

  lemma TouchedAreEarly(d: seq<bool>, m: nat, p: nat)
    requires m < 12 && LastsUntil(d, m) && p < FICH_BITS && Place(p) >= 24
    ensures p !in Touched(d)
  {
    hide Slot;
  }

  /** A difference that beats the sent run has at least two of the flips on it. */
  lemma BeatsNeedsTwo(w: seq<bool>, flips: set<nat>, d: seq<bool>, m: nat)
    requires |w| == FICH_SYMBOLS + 4 && 4 <= m && LastsUntil(d, m) && Beats(w, flips, d, m)
    ensures |Touched(d) * flips| >= 2
  {
    hide Distance, Touched, ChannelBit;
    var none := seq(FICH_SYMBOLS + 4, _ => false);
    assert OnlyStart(none);
    NothingTouched(none);
    TouchedIsDifferences(w, d);
    WeightByLastBit(d, m);
  }

  lemma OneLeft(s: set<nat>, flips: set<nat>, p: nat, q: nat)
    requires |flips| <= 3 && p != q && p in flips && q in flips && p !in s && q !in s
    ensures |s * flips| <= 1
  {
    CommonAtMost(s, flips - {p, q});
    assert s * flips == s * (flips - {p, q});
    assert flips == {p, q} + (flips - {p, q});
  }

  function Invert(air: seq<byte>, flips: set<nat>): (hit: seq<byte>)
    requires |air| == FICH_BYTES
    ensures |hit| == FICH_BYTES
  {
    Pack(seq(FICH_BITS, p requires 0 <= p < FICH_BITS => ReadBit(air, p) != (p in flips)))
  }

  lemma InvertDamages(air: seq<byte>, flips: set<nat>)
    requires |air| == FICH_BYTES && forall p :: p in flips ==> p < FICH_BITS
    ensures Damaged(air, flips, Invert(air, flips))
  {
    hide ReadBit;
    var bits := seq(FICH_BITS, p requires 0 <= p < FICH_BITS => ReadBit(air, p) != (p in flips));
    UnpackPack(bits);
    forall p | 0 <= p < FICH_BITS
      ensures ReadBit(Invert(air, flips), p) == (ReadBit(air, p) != (p in flips))
    {
      assert Unpack(Invert(air, flips))[p] == bits[p];
    }
  }

  /** The run that differs in the first light way: four channel bits away, and other in the first data bit. */
  lemma LightNeighbour(w: seq<bool>) returns (v: seq<bool>)
    requires |w| == FICH_SYMBOLS + 4 && EndState(w) == 0
    ensures |v| == |w| && EndState(v) == 0 && v[4] != w[4] && |Differences(w, v)| == 4
  {
    hide Air, Distance, EndState, Light, Differences, Damaged;
    var d := Light(0);
    v := Difference(w, d);
    LightIsLight(0);
    assert Difference(w, v) == d;
    Linear(w, v);
    DifferencesAreDistance(w, v);
    EndsInZero(w);
    EndsInZero(v);
  }

  /** Three of the four flips that lead to a neighbour make the decoder take the neighbour. */
  lemma NeighbourIsTaken(w: seq<bool>, v: seq<bool>, flips: set<nat>, hit: seq<byte>)
    requires |w| == |v| == FICH_SYMBOLS + 4 && EndState(v) == 0
    requires Damaged(Air(w), flips, hit) && |flips| == 3 && flips <= Differences(w, v) && |Differences(w, v)| == 4
    ensures Survivor(Received(hit), 0)[4] == v[4]
  {
    hide Air, Distance, Damaged, Received, Survivor, EndState, Differences;
    assert Differences(w, v) * flips == flips;
    DistanceFromOther(w, v, flips, hit);
    DamageStaysEarly(v, Received(hit));
  }

  /** Three inverted bits can be too many: for every header there are three that make the receiver reject it. */
  lemma ThreeCanBeTooMany(fich: seq<byte>) returns (flips: set<nat>, hit: seq<byte>)
    requires |fich| >= 6
    ensures Damaged(Encode(fich), flips, hit) && |flips| == 3 && !Accepts(hit)
  {
    hide Air, Damaged, Received, Survivor, Run, EndState, Accepts, Differences, Invert;
    var w := Run(fich);
    RunEndsInZero(fich);
    var v := LightNeighbour(w);
    var x :| x in Differences(w, v);
    flips := Differences(w, v) - {x};
    hit := Invert(Air(w), flips);
    InvertDamages(Air(w), flips);
    NeighbourIsTaken(w, v, flips, hit);
    AcceptedIffDataSurvives(fich, flips, hit);
    assert Survivor(Received(hit), 0)[4..100][0] == v[4] != w[4] == w[4..100][0];
  }
}
