/** The frame information channel header (FICH) of a YSF packet: CRC, four Golay words, convolutional code and
    interleaving on the way out, and the reverse on the way in (ysf_bridge/ysf_protocol.go). */
module Fich {
  import opened Bits
  import opened Trellis
  import opened MinimumDistance
  import opened Viterbi
  import Crc
  import Golay

  const FICH_BYTES := 25
  const FICH_BITS := 200
  const FICH_SYMBOLS := 100

  // ----- interleaving -----------------------------------------------------------------------

  /** Where the first bit of each of the hundred symbols goes; the second follows it. */
  const INTERLEAVE: seq<seq<nat>> := [
    [0, 40, 80, 120, 160],
    [2, 42, 82, 122, 162],
    [4, 44, 84, 124, 164],
    [6, 46, 86, 126, 166],
    [8, 48, 88, 128, 168],
    [10, 50, 90, 130, 170],
    [12, 52, 92, 132, 172],
    [14, 54, 94, 134, 174],
    [16, 56, 96, 136, 176],
    [18, 58, 98, 138, 178],
    [20, 60, 100, 140, 180],
    [22, 62, 102, 142, 182],
    [24, 64, 104, 144, 184],
    [26, 66, 106, 146, 186],
    [28, 68, 108, 148, 188],
    [30, 70, 110, 150, 190],
    [32, 72, 112, 152, 192],
    [34, 74, 114, 154, 194],
    [36, 76, 116, 156, 196],
    [38, 78, 118, 158, 198]
  ]

  function Position(i: nat): nat
    requires i < FICH_SYMBOLS
  {
    INTERLEAVE[i / 5][i % 5]
  }

  /** The symbol that channel bit p belongs to. */
  function Slot(p: nat): (i: nat)
    requires p < FICH_BITS
    ensures i < FICH_SYMBOLS
  {
    5 * (p % 40 / 2) + p / 40
  }

  lemma TableRow(r: nat, c: nat)
    requires r < 20 && c < 5
    ensures INTERLEAVE[r][c] == 2 * r + 40 * c
  {
  }

  /** The interleaver moves the symbols to disjoint even places and fills all two hundred bits. */
  lemma SlotInvertsPosition(i: nat)
    requires i < FICH_SYMBOLS
    ensures Position(i) + 1 < FICH_BITS && Position(i) % 2 == 0
    ensures Slot(Position(i)) == i && Slot(Position(i) + 1) == i
  {
    TableRow(i / 5, i % 5);
    SlotOf(i / 5, i % 5);
    hide INTERLEAVE, Slot;
  }

  lemma SlotOf(r: nat, c: nat)
    requires r < 20 && c < 5
    ensures Slot(2 * r + 40 * c) == Slot(2 * r + 40 * c + 1) == 5 * r + c
  {
    var p := 2 * r + 40 * c;
    assert p / 40 == c && (p + 1) / 40 == c;
  }

  lemma PositionInvertsSlot(p: nat)
    requires p < FICH_BITS
    ensures Position(Slot(p)) + p % 2 == p
  {
    var i := Slot(p);
    assert i / 5 == p % 40 / 2 && i % 5 == p / 40;
    TableRow(i / 5, i % 5);
  }

  // ----- packing into Golay words -----------------------------------------------------------

  function Byte(x: bv32): byte { (x & 0xFF) as byte }

  /** The twelve-bit groups of three bytes. */
  function GroupHigh(x: byte, y: byte): bv32 { (((x as bv32) << 4) & 0xFF0) | ((y >> 4) as bv32) }

  function GroupLow(y: byte, z: byte): bv32 { (((y as bv32) << 8) & 0xF00) | (z as bv32) }

  function Ungroup(b: bv32, b': bv32): (r: seq<byte>)
    ensures |r| == 3
  {
    [((b >> 4) & 0xFF) as byte, (((b << 4) & 0xF0) | ((b' >> 8) & 0x0F)) as byte, (b' & 0xFF) as byte]
  }

  function WordBytes(c: bv32): (r: seq<byte>)
    ensures |r| == 3
  {
    [Byte(c >> 16), Byte(c >> 8), Byte(c)]
  }

  function Word(x: byte, y: byte, z: byte): bv32 {
    ((x as bv32) << 16) | ((y as bv32) << 8) | (z as bv32)
  }

  lemma GroupsFit(x: byte, y: byte)
    ensures GroupHigh(x, y) <= 0xFFF && GroupLow(x, y) <= 0xFFF
  {
  }

  lemma UngroupGroups(x: byte, y: byte, z: byte)
    ensures Ungroup(GroupHigh(x, y), GroupLow(y, z)) == [x, y, z]
  {
    assert (GroupHigh(x, y) >> 4) & 0xFF == x as bv32;
    assert ((GroupHigh(x, y) << 4) & 0xF0) | ((GroupLow(y, z) >> 8) & 0x0F) == y as bv32;
    assert GroupLow(y, z) & 0xFF == z as bv32;
  }

  lemma WordOfBytes(c: bv32)
    requires c <= 0xFFFFFF
    ensures Word(WordBytes(c)[0], WordBytes(c)[1], WordBytes(c)[2]) == c
  {
  }

  // ----- the header as functions ------------------------------------------------------------

  /** The four Golay words of a six-byte header, and the zero byte that flushes the encoder. */
  function CodedBytes(work: seq<byte>): (r: seq<byte>)
    requires |work| == 6
    ensures |r| == 13
  {
    WordBytes(Golay.Encode24(GroupHigh(work[0], work[1]))) + WordBytes(Golay.Encode24(GroupLow(work[1], work[2]))) +
    WordBytes(Golay.Encode24(GroupHigh(work[3], work[4]))) + WordBytes(Golay.Encode24(GroupLow(work[4], work[5]))) + [0]
  }

  /** The header with its CRC in bytes 4 and 5. */
  function Checked(fich: seq<byte>): (work: seq<byte>)
    requires |fich| >= 6
    ensures |work| == 6
  {
    Crc.WithCrc(fich[..6])
  }

  function Run(fich: seq<byte>): (w: seq<bool>)
    requires |fich| >= 6
    ensures |w| == FICH_SYMBOLS + 4
  {
    EncoderRun(CodedBytes(Checked(fich)), FICH_SYMBOLS)
  }

  /** Channel bit p of a run. */
  predicate ChannelBit(w: seq<bool>, p: nat)
    requires |w| == FICH_SYMBOLS + 4 && p < FICH_BITS
  {
    var o := Output(w, Slot(p));
    if p % 2 == 0 then o.g1 else o.g2
  }

  /** The twenty-five bytes that carry a run. */
  function Air(w: seq<bool>): (air: seq<byte>)
    requires |w| == FICH_SYMBOLS + 4
    ensures |air| == FICH_BYTES
  {
    Pack(ChannelBits(w))
  }

  function Encode(fich: seq<byte>): (air: seq<byte>)
    requires |fich| >= 6
    ensures |air| == FICH_BYTES
  {
    Air(Run(fich))
  }

  /** The symbols the receiver takes out of twenty-five bytes. */
  function Received(air: seq<byte>): (r: seq<Symbol>)
    requires |air| >= FICH_BYTES
    ensures |r| == FICH_SYMBOLS
  {
    seq(FICH_SYMBOLS, i requires 0 <= i < FICH_SYMBOLS => ReceivedSymbol(air, i))
  }

  function ReceivedSymbol(air: seq<byte>, i: nat): Symbol
    requires |air| >= FICH_BYTES && i < FICH_SYMBOLS
  {
    SlotInvertsPosition(i);
    Symbol(ReadBit(air, Position(i)), ReadBit(air, Position(i) + 1))
  }

  /** The twelve bytes that the Viterbi decoder makes of them. */
  function Decoded(air: seq<byte>): (d: seq<byte>)
    requires |air| >= FICH_BYTES
    ensures |d| == 12
  {
    Pack(Survivor(Received(air), 0)[4..100])
  }

  function WordAt(d: seq<byte>, k: nat): bv32
    requires |d| == 12 && k < 4
  {
    Word(d[3 * k], d[3 * k + 1], d[3 * k + 2])
  }

  predicate GolayOk(d: seq<byte>)
    requires |d| == 12
  {
    forall k :: 0 <= k < 4 ==> Golay.IsCodeword(WordAt(d, k))
  }

  function Fields(d: seq<byte>): (fich: seq<byte>)
    requires |d| == 12
    ensures |fich| == 6
  {
    Ungroup(Golay.Data(WordAt(d, 0)), Golay.Data(WordAt(d, 1))) +
    Ungroup(Golay.Data(WordAt(d, 2)), Golay.Data(WordAt(d, 3)))
  }

  /** decodeFICH's verdict, and what it leaves in the caller's buffer when the four Golay words are good. */
  predicate Accepts(air: seq<byte>) {
    |air| >= FICH_BYTES && GolayOk(Decoded(air)) && Crc.Checks(Fields(Decoded(air)))
  }

  // ----- the code ---------------------------------------------------------------------------

  /** Packs and encodes the four Golay words of a header. */
  method GolayBytes(work: seq<byte>) returns (conv: array<byte>)
    requires |work| == 6
    ensures fresh(conv) && conv[..] == CodedBytes(work)
  {
    var c0 := Golay.Golay24Encode(GroupHigh(work[0], work[1]));
    var c1 := Golay.Golay24Encode(GroupLow(work[1], work[2]));
    var c2 := Golay.Golay24Encode(GroupHigh(work[3], work[4]));
    var c3 := Golay.Golay24Encode(GroupLow(work[4], work[5]));
    hide WordBytes, GroupHigh, GroupLow, Golay.Encode24;
    conv := PutWords(c0, c1, c2, c3);
  }

  method PutWords(c0: bv32, c1: bv32, c2: bv32, c3: bv32) returns (conv: array<byte>)
    ensures fresh(conv) && conv[..] == WordBytes(c0) + WordBytes(c1) + WordBytes(c2) + WordBytes(c3) + [0]
  {
    hide WordBytes;
    conv := new byte[13](_ => 0);
    PutWord(conv, 0, c0);
    PutWord(conv, 3, c1);
    assert conv[0..3] == WordBytes(c0);
    PutWord(conv, 6, c2);
    assert conv[0..3] == WordBytes(c0) && conv[3..6] == WordBytes(c1);
    PutWord(conv, 9, c3);
    assert conv[0..3] == WordBytes(c0) && conv[3..6] == WordBytes(c1) && conv[6..9] == WordBytes(c2);
    Reassemble(conv[..]);
  }

  lemma Reassemble(p: seq<byte>)
    requires |p| == 13
    ensures p == p[0..3] + p[3..6] + p[6..9] + p[9..12] + [p[12]]
  {
  }

  method PutWord(conv: array<byte>, at: nat, c: bv32)
    requires at + 3 <= conv.Length
    modifies conv
    ensures conv[at..at + 3] == WordBytes(c)
    ensures forall k :: 0 <= k < conv.Length && !(at <= k < at + 3) ==> conv[k] == old(conv[k])
  {
    hide Byte;
    conv[at], conv[at + 1], conv[at + 2] := Byte(c >> 16), Byte(c >> 8), Byte(c);
  }

  /** Encodes the header into the slice out[lo..hi]. */
  method EncodeFich(fich: seq<byte>, out: array<byte>, lo: nat, hi: nat)
    requires lo <= hi <= out.Length
    modifies out
    ensures out[..] == if |fich| < 6 || hi - lo < FICH_BYTES then old(out[..])
                       else old(out[..lo]) + Encode(fich) + old(out[lo + FICH_BYTES..])
  {
    if |fich| < 6 || hi - lo < FICH_BYTES {
      return;
    }
    var work := new byte[6](i requires 0 <= i < 6 => fich[i]);
    assert work[..] == fich[..6];
    Crc.AddCrcCcitt162(work);
    var conv := GolayBytes(work[..]);
    var convolved := new byte[25](_ => 0);
    EncodeYsfConv(conv[..], convolved, FICH_SYMBOLS);
    assert Sent(Unpack(convolved[..]), Unpack(convolved[..]), Run(fich), FICH_SYMBOLS);
    Interleave(convolved[..], Run(fich), out, lo);
  }

  method Clear(out: array<byte>, lo: nat)
    requires lo + FICH_BYTES <= out.Length
    modifies out
    ensures out[..lo] == old(out[..lo]) && out[lo + FICH_BYTES..] == old(out[lo + FICH_BYTES..])
    ensures forall k :: lo <= k < lo + FICH_BYTES ==> out[k] == 0
  {
    for i := 0 to FICH_BYTES
      invariant out[..lo] == old(out[..lo]) && out[lo + FICH_BYTES..] == old(out[lo + FICH_BYTES..])
      invariant forall k :: lo <= k < lo + i ==> out[k] == 0
    {
      out[lo + i] := 0;
    }
  }

  /** The interleaving loop of the encoder. */
  method Interleave(convolved: seq<byte>, ghost w: seq<bool>, out: array<byte>, lo: nat)
    requires |convolved| == 25 && |w| == FICH_SYMBOLS + 4 && lo + FICH_BYTES <= out.Length
    requires Sent(Unpack(convolved), Unpack(convolved), w, FICH_SYMBOLS)
    modifies out
    ensures out[..] == old(out[..lo]) + Air(w) + old(out[lo + FICH_BYTES..])
  {
    hide Placed, Sent, Position, Unpack, Output;
    Clear(out, lo);
    ghost var cleared := out[..];
    NonePlaced(Unpack(cleared), w, lo);
    var j := 0;
    for i := 0 to FICH_SYMBOLS
      invariant j == 2 * i
      invariant Placed(Unpack(out[..]), Unpack(cleared), w, lo, i)
    {
      SlotInvertsPosition(i);
      SentBits(convolved, w, i);
      var n := Position(i);
      var s0 := ReadBit(convolved, j);
      j := j + 1;
      var s1 := ReadBit(convolved, j);
      j := j + 1;
      ghost var bits := Unpack(out[..]);
      WriteBit(out, 8 * lo + n, s0);
      WriteBit(out, 8 * lo + n + 1, s1);
      PlacedOneMore(bits, Unpack(cleared), w, lo, i, Unpack(out[..]));
    }
    AllPlaced(out[..], cleared, w, lo);
  }

  /** The first i symbols of w stand in their places from bit 8 * lo on, and nothing outside has changed. */
  ghost predicate Placed(bits: seq<bool>, was: seq<bool>, w: seq<bool>, lo: nat, i: nat)
    requires |bits| == |was| && |w| == FICH_SYMBOLS + 4 && 8 * lo + FICH_BITS <= |bits|
  {
    && (forall p :: 0 <= p < FICH_BITS && Slot(p) < i ==> bits[8 * lo + p] == ChannelBit(w, p))
    && (forall q :: 0 <= q < 8 * lo ==> bits[q] == was[q])
    && (forall q :: 8 * lo + FICH_BITS <= q < |bits| ==> bits[q] == was[q])
  }

  lemma NonePlaced(bits: seq<bool>, w: seq<bool>, lo: nat)
    requires |w| == FICH_SYMBOLS + 4 && 8 * lo + FICH_BITS <= |bits|
    ensures Placed(bits, bits, w, lo, 0)
  {
  }

  lemma SentBits(convolved: seq<byte>, w: seq<bool>, i: nat)
    requires |convolved| == 25 && |w| == FICH_SYMBOLS + 4 && i < FICH_SYMBOLS
    requires Sent(Unpack(convolved), Unpack(convolved), w, FICH_SYMBOLS)
    ensures Symbol(ReadBit(convolved, 2 * i), ReadBit(convolved, 2 * i + 1)) == Output(w, i)
  {
    hide Output, ReadBit;
  }

  lemma PlacedOneMore(bits: seq<bool>, was: seq<bool>, w: seq<bool>, lo: nat, i: nat, next: seq<bool>)
    requires |bits| == |was| && |w| == FICH_SYMBOLS + 4 && 8 * lo + FICH_BITS <= |bits|
    requires i < FICH_SYMBOLS && Position(i) + 1 < FICH_BITS && Placed(bits, was, w, lo, i)
    requires next == bits[8 * lo + Position(i) := Output(w, i).g1][8 * lo + Position(i) + 1 := Output(w, i).g2]
    ensures Placed(next, was, w, lo, i + 1)
  {
    hide Output, Slot, Position;
    SlotInvertsPosition(i);
    forall p | 0 <= p < FICH_BITS && Slot(p) < i + 1
      ensures next[8 * lo + p] == ChannelBit(w, p)
    {
      PositionInvertsSlot(p);
    }
  }

  lemma AllPlaced(out: seq<byte>, was: seq<byte>, w: seq<bool>, lo: nat)
    requires |out| == |was| && |w| == FICH_SYMBOLS + 4 && lo + FICH_BYTES <= |out|
    requires Placed(Unpack(out), Unpack(was), w, lo, FICH_SYMBOLS)
    ensures out == was[..lo] + Air(w) + was[lo + FICH_BYTES..]
  {
    hide ChannelBit, ReadBit, Slot, Pack;
    var head, tail := was[..lo], was[lo + FICH_BYTES..];
    var made := head + Air(w) + tail;
    UnpackPack(ChannelBits(w));
    UnpackConcat(head, Air(w));
    UnpackConcat(head + Air(w), tail);
    UnpackConcat(head, was[lo..]);
    UnpackConcat(was[..lo + FICH_BYTES], tail);
    assert was == head + was[lo..] == was[..lo + FICH_BYTES] + tail;
    var b := Unpack(was);
    assert Unpack(made) == Unpack(head) + ChannelBits(w) + Unpack(tail);
    assert Unpack(out) == Unpack(made);
    UnpackInjective(out, made);
  }

  function ChannelBits(w: seq<bool>): (bits: seq<bool>)
    requires |w| == FICH_SYMBOLS + 4
    ensures |bits| == FICH_BITS
  {
    seq(FICH_BITS, p requires 0 <= p < FICH_BITS => ChannelBit(w, p))
  }

  /** Deinterleaves the header into a Viterbi decoder. */
  method FeedAir(air: seq<byte>) returns (vit: YsfConvolution)
    requires |air| >= FICH_BYTES
    ensures fresh(vit) && vit.Valid() && vit.received == Received(air)
  {
    hide ReceivedSymbol, Metrics, Recorded;
    ghost var r := Received(air);
    vit := new YsfConvolution();
    vit.Start();
    for i := 0 to FICH_SYMBOLS
      invariant fresh(vit.oldMetrics) && fresh(vit.newMetrics) && fresh(vit.decisions)
      invariant vit.Valid() && vit.received == r[..i]
    {
      vit.Decode(ReceivedSymbol(air, i));
      assert r[..i + 1] == r[..i] + [r[i]];
    }
    assert r[..FICH_SYMBOLS] == r;
  }

  /** The 96 data bits along the survivor of state 0, as twelve bytes. */
  method DecodeAir(air: seq<byte>) returns (d: seq<byte>)
    requires |air| >= FICH_BYTES
    ensures d == Decoded(air)
  {
    hide Survivor, Received, Unpack, Pack;
    var vit := FeedAir(air);
    var output := new byte[13](_ => 0);
    vit.Chainback(output, 96);
    d := output[..12];
    PackedPrefix(output[..], Survivor(Received(air), 0)[4..100]);
  }

  lemma PackedPrefix(out: seq<byte>, bits: seq<bool>)
    requires |bits| == 96 && |out| == 13 && forall n :: 0 <= n < 96 ==> Unpack(out)[n] == bits[n]
    ensures out[..12] == Pack(bits)
  {
    hide Unpack, Pack;
    assert out == out[..12] + out[12..];
    UnpackConcat(out[..12], out[12..]);
    UnpackPack(bits);
    forall n | 0 <= n < 96
      ensures Unpack(out[..12])[n] == bits[n]
    {
      assert Unpack(out)[n] == (Unpack(out[..12]) + Unpack(out[12..]))[n];
    }
    assert Unpack(out[..12]) == Unpack(Pack(bits));
    UnpackInjective(out[..12], Pack(bits));
  }

  method GolayFields(d: seq<byte>) returns (ok: bool, f: seq<byte>)
    requires |d| == 12
    ensures ok == GolayOk(d) && |f| == 6
    ensures ok ==> f == Fields(d)
  {
    hide Word, Ungroup;
    var b0, ok0 := Golay.Golay24Decode(Word(d[0], d[1], d[2]));
    var b1, ok1 := Golay.Golay24Decode(Word(d[3], d[4], d[5]));
    var b2, ok2 := Golay.Golay24Decode(Word(d[6], d[7], d[8]));
    var b3, ok3 := Golay.Golay24Decode(Word(d[9], d[10], d[11]));
    assert WordAt(d, 0) == Word(d[0], d[1], d[2]) && WordAt(d, 1) == Word(d[3], d[4], d[5]);
    assert WordAt(d, 2) == Word(d[6], d[7], d[8]) && WordAt(d, 3) == Word(d[9], d[10], d[11]);
    ok := ok0 && ok1 && ok2 && ok3;
    f := Ungroup(b0, b1) + Ungroup(b2, b3);
  }

  method DecodeFich(air: seq<byte>, fich: array<byte>) returns (ok: bool)
    modifies fich
    ensures ok <==> fich.Length >= 6 && Accepts(air)
    ensures fich[..] == if |air| < FICH_BYTES || fich.Length < 6 || !GolayOk(Decoded(air)) then old(fich[..])
                        else Fields(Decoded(air)) + old(fich[6..])
  {
    if |air| < FICH_BYTES || fich.Length < 6 {
      return false;
    }
    hide Decoded, GolayOk, Fields, Crc.Checks;
    var d := DecodeAir(air);
    var good, f := GolayFields(d);
    if !good {
      return false;
    }
    PutFields(fich, f);
    assert fich[..6] == f;
    ok := Crc.CheckCrcCcitt162(fich[..6]);
  }

  method PutFields(fich: array<byte>, f: seq<byte>)
    requires |f| == 6 <= fich.Length
    modifies fich
    ensures fich[..] == f + old(fich[6..])
  {
    fich[0], fich[1], fich[2], fich[3], fich[4], fich[5] := f[0], f[1], f[2], f[3], f[4], f[5];
  }

  // ----- an undamaged header comes back -----------------------------------------------------

  lemma WordsOfCodedBytes(work: seq<byte>)
    requires |work| == 6
    ensures var d := CodedBytes(work)[..12];
            && WordAt(d, 0) == Golay.Encode24(GroupHigh(work[0], work[1]))
            && WordAt(d, 1) == Golay.Encode24(GroupLow(work[1], work[2]))
            && WordAt(d, 2) == Golay.Encode24(GroupHigh(work[3], work[4]))
            && WordAt(d, 3) == Golay.Encode24(GroupLow(work[4], work[5]))
  {
    hide Word, WordBytes, GroupHigh, GroupLow;
    GroupFits(work[0], work[1]);
    GroupFits(work[1], work[2]);
    GroupFits(work[3], work[4]);
    GroupFits(work[4], work[5]);
  }

  lemma GroupFits(x: byte, y: byte)
    ensures var a, b := GroupHigh(x, y), GroupLow(x, y);
            && Golay.Data(Golay.Encode24(a)) == a && Golay.IsCodeword(Golay.Encode24(a))
            && Golay.Data(Golay.Encode24(b)) == b && Golay.IsCodeword(Golay.Encode24(b))
            && Word(WordBytes(Golay.Encode24(a))[0], WordBytes(Golay.Encode24(a))[1], WordBytes(Golay.Encode24(a))[2])
               == Golay.Encode24(a)
            && Word(WordBytes(Golay.Encode24(b))[0], WordBytes(Golay.Encode24(b))[1], WordBytes(Golay.Encode24(b))[2])
               == Golay.Encode24(b)
  {
    hide Word, WordBytes, GroupHigh, GroupLow;
    GroupsFit(x, y);
    Golay.DecodesToData(GroupHigh(x, y));
    Golay.DecodesToData(GroupLow(x, y));
    WordOfBytes(Golay.Encode24(GroupHigh(x, y)));
    WordOfBytes(Golay.Encode24(GroupLow(x, y)));
  }

  /** Undamaged Golay words give back the header. */
  lemma FieldsOfCodedBytes(work: seq<byte>)
    requires |work| == 6
    ensures GolayOk(CodedBytes(work)[..12]) && Fields(CodedBytes(work)[..12]) == work
  {
    hide CodedBytes, WordAt, GroupHigh, GroupLow, Ungroup;
    WordsOfCodedBytes(work);
    GroupFits(work[0], work[1]);
    GroupFits(work[1], work[2]);
    GroupFits(work[3], work[4]);
    GroupFits(work[4], work[5]);
    UngroupGroups(work[0], work[1], work[2]);
    UngroupGroups(work[3], work[4], work[5]);
  }

  // ----- a damaged header -------------------------------------------------------------------

  /** hit is air with exactly the channel bits in flips inverted. */
  ghost predicate Damaged(air: seq<byte>, flips: set<nat>, hit: seq<byte>)
    ensures Damaged(air, flips, hit) ==> |air| == |hit| == FICH_BYTES
  {
    && |air| == |hit| == FICH_BYTES
    && (forall p :: p in flips ==> p < FICH_BITS)
    && (forall p :: 0 <= p < FICH_BITS ==> ReadBit(hit, p) == (ReadBit(air, p) != (p in flips)))
  }

  lemma AirBits(w: seq<bool>, p: nat)
    requires |w| == FICH_SYMBOLS + 4 && p < FICH_BITS
    ensures ReadBit(Air(w), p) == ChannelBit(w, p)
  {
    hide ChannelBit, ReadBit;
    UnpackPack(ChannelBits(w));
    assert Unpack(Air(w))[p] == ChannelBits(w)[p];
  }

  /** What one symbol adds to the distance is the number of its bits that were inverted. */
  lemma CostOfDamage(w: seq<bool>, flips: set<nat>, hit: seq<byte>, k: nat)
    requires |w| == FICH_SYMBOLS + 4 && k < FICH_SYMBOLS && Damaged(Air(w), flips, hit)
    ensures Position(k) + 1 < FICH_BITS
    ensures Cost(Output(w, k), ReceivedSymbol(hit, k))
            == (if Position(k) in flips then 1 else 0) + (if Position(k) + 1 in flips then 1 else 0)
  {
    hide Air, Output, Slot, Position, ReadBit;
    SlotInvertsPosition(k);
    AirBits(w, Position(k));
    AirBits(w, Position(k) + 1);
  }

  ghost function FlipsBefore(flips: set<nat>, k: nat): set<nat> {
    set p | p in flips && p < FICH_BITS && Slot(p) < k
  }

  lemma OneMoreSlot(flips: set<nat>, k: nat)
    requires k < FICH_SYMBOLS && Position(k) + 1 < FICH_BITS
    ensures |FlipsBefore(flips, k + 1)| == |FlipsBefore(flips, k)|
            + (if Position(k) in flips then 1 else 0) + (if Position(k) + 1 in flips then 1 else 0)
  {
    hide Slot, Position;
    var p := Position(k);
    SlotInvertsPosition(k);
    var a := if p in flips then {p} else {};
    var b := if p + 1 in flips then {p + 1} else {};
    forall q | q in flips && q < FICH_BITS && Slot(q) == k
      ensures q == p || q == p + 1
    {
      PositionInvertsSlot(q);
    }
    assert FlipsBefore(flips, k + 1) == FlipsBefore(flips, k) + a + b;
  }

  lemma {:induction false} DistanceOfPrefix(w: seq<bool>, flips: set<nat>, hit: seq<byte>, k: nat)
    requires |w| == FICH_SYMBOLS + 4 && k <= FICH_SYMBOLS && Damaged(Air(w), flips, hit)
    ensures Distance(w[..k + 4], Received(hit)[..k]) == |FlipsBefore(flips, k)|
  {
    hide Air, Slot, Position, Cost, Damaged, ReceivedSymbol;
    var r := Received(hit);
    if k == 0 {
      assert FlipsBefore(flips, 0) == {};
    } else {
      DistanceOfPrefix(w, flips, hit, k - 1);
      CostOfDamage(w, flips, hit, k - 1);
      OneMoreSlot(flips, k - 1);
      assert w[..k + 4][..k + 3] == w[..k + 3] && r[..k][..k - 1] == r[..k - 1];
      assert Output(w[..k + 4], k - 1) == Output(w, k - 1);
    }
  }

  /** The run that was sent is as far from what arrives as there are inverted bits. */
  lemma DistanceIsDamage(w: seq<bool>, flips: set<nat>, hit: seq<byte>)
    requires |w| == FICH_SYMBOLS + 4 && Damaged(Air(w), flips, hit)
    ensures Distance(w, Received(hit)) == |flips|
  {
    hide Air, Slot, Distance, Received;
    DistanceOfPrefix(w, flips, hit, FICH_SYMBOLS);
    assert w[..104] == w && Received(hit)[..100] == Received(hit);
    assert FlipsBefore(flips, FICH_SYMBOLS) == flips;
  }

  lemma RunEndsInZero(fich: seq<byte>)
    requires |fich| >= 6
    ensures EndState(Run(fich)) == 0
    ensures forall i :: 0 <= i < 96 ==> Run(fich)[i + 4] == ReadBit(CodedBytes(Checked(fich)), i)
  {
    hide CodedBytes, Checked;
    var c := CodedBytes(Checked(fich));
    assert c[12] == 0 by { LastIsZero(Checked(fich)); }
    var w := Run(fich);
    forall j | 100 <= j < 104
      ensures !w[j]
    {
      assert w[j] == ReadBit(c, j - 4);
    }
  }

  lemma LastIsZero(work: seq<byte>)
    requires |work| == 6
    ensures CodedBytes(work)[12] == 0
  {
    hide WordBytes;
  }

  /** After at most three inverted bits, everything the Viterbi decoder delivers after its first byte is right, and
      after at most one, everything. */
  lemma DecodedAfterDamage(fich: seq<byte>, flips: set<nat>, hit: seq<byte>)
    requires |fich| >= 6 && Damaged(Encode(fich), flips, hit) && |flips| <= 3
    ensures Decoded(hit)[1..] == CodedBytes(Checked(fich))[1..12]
    ensures |flips| <= 1 ==> Decoded(hit) == CodedBytes(Checked(fich))[..12]
  {
    hide Air, CodedBytes, Checked, Distance, Survivor, Metrics, Damaged, Received, EndState;
    var d, c := Decoded(hit), CodedBytes(Checked(fich));
    DistanceIsDamage(Run(fich), flips, hit);
    RunEndsInZero(fich);
    DamageStaysEarly(Run(fich), Received(hit));
    hide Run;
    var v := Survivor(Received(hit), 0);
    UnpackPack(v[4..100]);
    forall i | 0 <= i < 96 && (i >= 8 || |flips| <= 1)
      ensures ReadBit(d, i) == ReadBit(c, i)
    {
      assert Unpack(d)[i] == v[4..100][i] == v[i + 4];
    }
    hide ReadBit, Decoded;
    forall k | 1 <= k < 12
      ensures d[k] == c[k]
    {
      SameByte(d, c, k);
    }
    if |flips| <= 1 {
      SameByte(d, c, 0);
    }
  }

  /** For every header, inverting any one of the two hundred channel bits (or none) is repaired; and inverting any
      two or three of them is repaired or noticed: the receiver never accepts a header that was not sent. */
  lemma DamageRepairedOrNoticed(fich: seq<byte>, flips: set<nat>, hit: seq<byte>)
    requires |fich| >= 6 && Damaged(Encode(fich), flips, hit) && |flips| <= 3
    ensures |flips| <= 1 ==> Accepts(hit)
    ensures Accepts(hit) ==> Fields(Decoded(hit)) == Checked(fich)
  {
    hide Encode, Damaged, Decoded, CodedBytes, Fields, WordAt;
    var d, work := Decoded(hit), Checked(fich);
    DecodedAfterDamage(fich, flips, hit);
    FieldsOfCodedBytes(work);
    Crc.WithCrcChecks(fich[..6]);
    if GolayOk(d) {
      FirstWordNoticed(d, CodedBytes(work)[..12]);
    }
  }

  /** Damage in the first byte alone always spoils the first Golay word. */
  lemma FirstWordNoticed(d: seq<byte>, c: seq<byte>)
    requires |d| == |c| == 12 && d[1..] == c[1..] && GolayOk(d) && GolayOk(c)
    ensures d == c
  {
    var x, y := WordAt(d, 0), WordAt(c, 0);
    assert d[1] == c[1] && d[2] == c[2];
    SameLowBits(d[0], c[0], d[1], d[2]);
    Golay.ParityDeterminesData(Golay.Data(x), Golay.Data(y));
  }

  lemma SameLowBits(a: byte, b: byte, y: byte, z: byte)
    ensures Golay.Parity(Word(a, y, z)) == Golay.Parity(Word(b, y, z))
    ensures Golay.Data(Word(a, y, z)) == Golay.Data(Word(b, y, z)) ==> a == b
  {
  }
}
