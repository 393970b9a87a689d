/** The CRC-CCITT check sequence in its two bit orders: high bit first with the register starting at zero, as the YSF
    header has it (ysf_bridge/ysf_codec.go), and low bit first starting from ones, as the D-STAR header has it
    (xlx_bridge/dextra_protocol.go). Both complement the register at the end. */
module Ccitt {
  import opened Bits

  datatype Order = HighFirst | LowFirst

  function Xor(c: bv16, d: bv16): bv16 { c ^ d }

  function Widen(b: byte): bv16 { b as bv16 }

  function Upper(b: byte): bv16 { (b as bv16) << 8 }

  /** The bit that falls out of the register, what is left of it, and what is added when the bit was set. */
  predicate Out(o: Order, c: bv16) {
    match o
    case HighFirst => c & 0x8000 != 0
    case LowFirst => c & 1 != 0
  }

  function Moved(o: Order, c: bv16): bv16 {
    match o
    case HighFirst => c << 1
    case LowFirst => c >> 1
  }

  function Tap(o: Order): bv16 {
    match o
    case HighFirst => 0x1021
    case LowFirst => 0x8408
  }

  /** One step of the register. */
  function Step(o: Order, c: bv16): bv16 {
    if Out(o, c) then Xor(Moved(o, c), Tap(o)) else Moved(o, c)
  }

  function Steps(o: Order, c: bv16, n: nat): bv16 {
    if n == 0 then c else Step(o, Steps(o, c, n - 1))
  }

  /** Where a byte enters the register, and where the other half is. */
  function Entry(o: Order, b: byte): bv16 {
    match o
    case HighFirst => Upper(b)
    case LowFirst => Widen(b)
  }

  function Other(o: Order, b: byte): bv16 {
    match o
    case HighFirst => Widen(b)
    case LowFirst => Upper(b)
  }

  function Feed(o: Order, c: bv16, b: byte): bv16 {
    Steps(o, Xor(c, Entry(o, b)), 8)
  }

  function Start(o: Order): bv16 {
    match o
    case HighFirst => 0
    case LowFirst => 0xFFFF
  }

  /** The register after all of data. */
  function Register(o: Order, data: seq<byte>): bv16
    decreases |data|
  {
    if |data| == 0 then Start(o) else Feed(o, Register(o, data[..|data| - 1]), data[|data| - 1])
  }

  function Complement(c: bv16): bv16 { !c }

  function Sequence(o: Order, data: seq<byte>): bv16 { Complement(Register(o, data)) }

  function High(crc: bv16): byte { (crc >> 8) as byte }

  function Low(crc: bv16): byte { (crc & 0xFF) as byte }

  /** The two bytes of the check sequence in the order in which they are sent. */
  function First(o: Order, crc: bv16): byte {
    match o
    case HighFirst => High(crc)
    case LowFirst => Low(crc)
  }

  function Second(o: Order, crc: bv16): byte {
    match o
    case HighFirst => Low(crc)
    case LowFirst => High(crc)
  }

  function WithCheck(o: Order, body: seq<byte>): (data: seq<byte>)
    ensures |data| == |body| + 2
  {
    body + [First(o, Sequence(o, body)), Second(o, Sequence(o, body))]
  }

  /** The last two bytes are the check sequence of the rest. */
  predicate Checks(o: Order, data: seq<byte>) {
    |data| >= 2 && data == WithCheck(o, data[..|data| - 2])
  }

  // ----- sums without carries ---------------------------------------------------------------

  lemma XorZero(c: bv16, d: bv16)
    ensures Xor(c, d) == 0 <==> c == d
  {
  }

  lemma XorCancel(c: bv16, u: bv16, v: bv16)
    requires Xor(c, u) == Xor(c, v)
    ensures u == v
  {
    assert c ^ (c ^ u) == u && c ^ (c ^ v) == v;
  }

  lemma XorAssociates(a: bv16, b: bv16, c: bv16)
    ensures Xor(a, Xor(b, c)) == Xor(Xor(a, b), c)
  {
  }

  lemma XorCommutes(c: bv16, d: bv16)
    ensures Xor(c, d) == Xor(d, c)
  {
  }

  lemma MovedXor(o: Order, c: bv16, d: bv16)
    ensures Moved(o, Xor(c, d)) == Xor(Moved(o, c), Moved(o, d))
  {
    assert (c ^ d) << 1 == (c << 1) ^ (d << 1);
    assert (c ^ d) >> 1 == (c >> 1) ^ (d >> 1);
  }

  lemma OutXor(o: Order, c: bv16, d: bv16)
    ensures Out(o, Xor(c, d)) == (Out(o, c) != Out(o, d))
  {
    assert (c ^ d) & 0x8000 == (c & 0x8000) ^ (d & 0x8000);
    assert (c ^ d) & 1 == (c & 1) ^ (d & 1);
  }

  /** The tap constant may be moved through a sum, and cancels against itself. */
  lemma XorTap(a: bv16, b: bv16, tap: bv16)
    ensures Xor(Xor(a, tap), b) == Xor(Xor(a, b), tap)
    ensures Xor(a, Xor(b, tap)) == Xor(Xor(a, b), tap)
    ensures Xor(Xor(a, tap), Xor(b, tap)) == Xor(a, b)
  {
    XorSelf(b, tap);
    hide Xor;
    XorAssociates(a, tap, b);
    XorCommutes(tap, b);
    XorAssociates(a, b, tap);
    XorAssociates(a, tap, Xor(b, tap));
  }

  lemma XorSelf(b: bv16, tap: bv16)
    ensures Xor(tap, Xor(b, tap)) == b
  {
    assert tap ^ (b ^ tap) == b;
  }

  // ----- the register -----------------------------------------------------------------------

  lemma StepLinear(o: Order, c: bv16, d: bv16)
    ensures Step(o, Xor(c, d)) == Xor(Step(o, c), Step(o, d))
  {
    hide Xor, Out, Moved, Tap;
    MovedXor(o, c, d);
    OutXor(o, c, d);
    XorTap(Moved(o, c), Moved(o, d), Tap(o));
  }

  lemma StepKernel(o: Order, c: bv16)
    ensures Step(o, c) == 0 <==> c == 0
  {
  }

  lemma StepInjective(o: Order, c: bv16, d: bv16)
    requires Step(o, c) == Step(o, d)
    ensures c == d
  {
    hide Step, Xor;
    StepLinear(o, c, d);
    XorZero(Step(o, c), Step(o, d));
    StepKernel(o, Xor(c, d));
    XorZero(c, d);
  }

  lemma {:induction false} StepsLinear(o: Order, c: bv16, d: bv16, n: nat)
    ensures Steps(o, Xor(c, d), n) == Xor(Steps(o, c, n), Steps(o, d, n))
    decreases n
  {
    hide Step, Xor;
    if n != 0 {
      StepsLinear(o, c, d, n - 1);
      StepLinear(o, Steps(o, c, n - 1), Steps(o, d, n - 1));
    }
  }

  /** The register forgets nothing, however many steps it makes. */
  lemma {:induction false} StepsInjective(o: Order, c: bv16, d: bv16, n: nat)
    requires Steps(o, c, n) == Steps(o, d, n)
    ensures c == d
    decreases n
  {
    hide Step;
    if n != 0 {
      StepInjective(o, Steps(o, c, n - 1), Steps(o, d, n - 1));
      StepsInjective(o, c, d, n - 1);
    }
  }

  lemma EightSteps(o: Order, c: bv16)
    ensures Steps(o, c, 8) == Step(o, Step(o, Step(o, Step(o, Step(o, Step(o, Step(o, Step(o, c))))))))
  {
    hide Step;
    assert Steps(o, c, 1) == Step(o, Steps(o, c, 0));
    assert Steps(o, c, 2) == Step(o, Steps(o, c, 1));
    assert Steps(o, c, 3) == Step(o, Steps(o, c, 2));
    assert Steps(o, c, 4) == Step(o, Steps(o, c, 3));
    assert Steps(o, c, 5) == Step(o, Steps(o, c, 4));
    assert Steps(o, c, 6) == Step(o, Steps(o, c, 5));
    assert Steps(o, c, 7) == Step(o, Steps(o, c, 6));
  }

  /** Eight steps only move the other half to where bytes enter: nothing of it reaches the taps. */
  lemma OtherMovesToEntry(o: Order, b: byte)
    ensures Steps(o, Other(o, b), 8) == Entry(o, b)
  {
    EightSteps(o, Other(o, b));
    match o
    case HighFirst =>
    case LowFirst =>
  }

  /** Two bytes fed one after the other act like one 16-bit word. */
  lemma FeedTwo(o: Order, c: bv16, x: byte, y: byte)
    ensures Feed(o, Feed(o, c, x), y) == Steps(o, Steps(o, Xor(Xor(c, Entry(o, x)), Other(o, y)), 8), 8)
  {
    hide Steps, Xor, Entry, Other;
    StepsLinear(o, Xor(c, Entry(o, x)), Other(o, y), 8);
    OtherMovesToEntry(o, y);
  }

  lemma Halves(x: byte, y: byte)
    ensures High(Xor(Upper(x), Widen(y))) == x && Low(Xor(Upper(x), Widen(y))) == y
  {
  }

  lemma WordInjective(o: Order, x: byte, y: byte, x': byte, y': byte)
    requires Xor(Entry(o, x), Other(o, y)) == Xor(Entry(o, x'), Other(o, y'))
    ensures x == x' && y == y'
  {
    hide Xor, Upper, Widen, High, Low;
    match o
    case HighFirst =>
      Halves(x, y);
      Halves(x', y');
    case LowFirst =>
      Halves(y, x);
      Halves(y', x');
      XorCommutes(Widen(x), Upper(y));
      XorCommutes(Widen(x'), Upper(y'));
  }

  lemma FeedTwoInjective(o: Order, c: bv16, x: byte, y: byte, x': byte, y': byte)
    requires Feed(o, Feed(o, c, x), y) == Feed(o, Feed(o, c, x'), y')
    ensures x == x' && y == y'
  {
    hide Steps, Xor, Entry, Other, Feed;
    FeedTwo(o, c, x, y);
    FeedTwo(o, c, x', y');
    var u, v := Xor(Xor(c, Entry(o, x)), Other(o, y)), Xor(Xor(c, Entry(o, x')), Other(o, y'));
    StepsInjective(o, Steps(o, u, 8), Steps(o, v, 8), 8);
    StepsInjective(o, u, v, 8);
    XorAssociates(c, Entry(o, x), Other(o, y));
    XorAssociates(c, Entry(o, x'), Other(o, y'));
    XorCancel(c, Xor(Entry(o, x), Other(o, y)), Xor(Entry(o, x'), Other(o, y')));
    WordInjective(o, x, y, x', y');
  }

  lemma FeedInjective(o: Order, c: bv16, d: bv16, b: byte)
    requires Feed(o, c, b) == Feed(o, d, b)
    ensures c == d
  {
    hide Steps, Xor, Entry;
    StepsInjective(o, Xor(c, Entry(o, b)), Xor(d, Entry(o, b)), 8);
    XorCommutes(c, Entry(o, b));
    XorCommutes(d, Entry(o, b));
    XorCancel(Entry(o, b), c, d);
  }

  lemma {:induction false} RegisterSuffixInjective(o: Order, p: seq<byte>, q: seq<byte>, s: seq<byte>)
    requires Register(o, p + s) == Register(o, q + s)
    ensures Register(o, p) == Register(o, q)
    decreases |s|
  {
    hide Feed;
    if |s| == 0 {
      assert p + s == p && q + s == q;
    } else {
      var t, b := s[..|s| - 1], s[|s| - 1];
      assert (p + s)[..|p + s| - 1] == p + t && (q + s)[..|q + s| - 1] == q + t;
      FeedInjective(o, Register(o, p + t), Register(o, q + t), b);
      RegisterSuffixInjective(o, p, q, t);
    }
  }

  lemma RegisterTwo(o: Order, pre: seq<byte>, x: byte, y: byte)
    ensures Register(o, pre + [x, y]) == Feed(o, Feed(o, Register(o, pre), x), y)
  {
    hide Feed;
    var p := pre + [x, y];
    assert p[..|p| - 1] == pre + [x] && (pre + [x])[..|pre|] == pre;
  }

  // ----- what the check sequence promises ---------------------------------------------------

  /** damaged differs from data at most in bytes i and i + 1. */
  predicate Burst(data: seq<byte>, damaged: seq<byte>, i: nat) {
    && |damaged| == |data| && i + 2 <= |data|
    && forall k :: 0 <= k < |data| && k != i && k != i + 1 ==> damaged[k] == data[k]
  }

  lemma Around(data: seq<byte>, i: nat)
    requires i + 2 <= |data|
    ensures data == data[..i] + [data[i], data[i + 1]] + data[i + 2..]
  {
  }

  /** Data of one length that differ, but only within two neighbouring bytes, never share a check sequence. */
  lemma SequencesDiffer(o: Order, data: seq<byte>, damaged: seq<byte>, i: nat)
    requires Burst(data, damaged, i) && damaged != data
    ensures Register(o, damaged) != Register(o, data) && Sequence(o, damaged) != Sequence(o, data)
  {
    hide Feed, Register, Complement;
    if Register(o, damaged) == Register(o, data) {
      var pre, suf := data[..i], data[i + 2..];
      assert damaged[..i] == pre && damaged[i + 2..] == suf;
      Around(data, i);
      Around(damaged, i);
      RegisterSuffixInjective(o, pre + [data[i], data[i + 1]], pre + [damaged[i], damaged[i + 1]], suf);
      RegisterTwo(o, pre, data[i], data[i + 1]);
      RegisterTwo(o, pre, damaged[i], damaged[i + 1]);
      FeedTwoInjective(o, Register(o, pre), data[i], data[i + 1], damaged[i], damaged[i + 1]);
      assert false;
    }
    ComplementInjective(Register(o, damaged), Register(o, data));
  }

  lemma ComplementInjective(c: bv16, d: bv16)
    ensures Complement(c) == Complement(d) <==> c == d
  {
    assert !!c == c && !!d == d;
  }

  /** What a buffer that ends in its own check sequence leaves in the register. */
  function Residue(o: Order): bv16 {
    match o
    case HighFirst => 0x1D0F
    case LowFirst => 0xF0B8
  }

  lemma ResidueOfOnes(o: Order)
    ensures Steps(o, Steps(o, 0xFFFF, 8), 8) == Residue(o)
  {
    EightSteps(o, 0xFFFF);
    EightSteps(o, Steps(o, 0xFFFF, 8));
  }

  lemma ComplementFills(o: Order, c: bv16)
    ensures Xor(Xor(c, Entry(o, First(o, Complement(c)))), Other(o, Second(o, Complement(c)))) == 0xFFFF
  {
    match o
    case HighFirst =>
    case LowFirst =>
  }

  /** The check accepts exactly the buffers whose register ends in the residue. */
  lemma ChecksIffResidue(o: Order, data: seq<byte>)
    requires |data| >= 2
    ensures Checks(o, data) <==> Register(o, data) == Residue(o)
  {
    hide Feed, Register, Complement, First, Second, Steps, Xor, Entry, Other, Residue;
    var n := |data|;
    var body, x, y := data[..n - 2], data[n - 2], data[n - 1];
    var c := Register(o, body);
    var x', y' := First(o, Sequence(o, body)), Second(o, Sequence(o, body));
    assert data == body + [x, y];
    RegisterTwo(o, body, x, y);
    FeedTwo(o, c, x', y');
    ComplementFills(o, c);
    ResidueOfOnes(o);
    if Register(o, data) == Residue(o) {
      FeedTwoInjective(o, c, x, y, x', y');
    }
    if Checks(o, data) {
      assert data[n - 2] == x' && data[n - 1] == y';
    }
  }

  lemma WithCheckChecks(o: Order, body: seq<byte>)
    ensures Checks(o, WithCheck(o, body))
  {
    hide First, Second, Sequence;
    assert WithCheck(o, body)[..|body|] == body;
  }

  /** No change confined to two neighbouring bytes (so none confined to one) slips past the check, wherever it
      sits: in the data, in the check sequence, or across the border. */
  lemma DetectsBurst(o: Order, data: seq<byte>, damaged: seq<byte>, i: nat)
    requires Checks(o, data) && Burst(data, damaged, i)
    ensures Checks(o, damaged) <==> damaged == data
  {
    hide Register, Sequence, Checks, Residue;
    ChecksIffResidue(o, data);
    ChecksIffResidue(o, damaged);
    if damaged != data {
      SequencesDiffer(o, data, damaged, i);
    }
  }
}
