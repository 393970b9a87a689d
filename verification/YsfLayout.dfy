/** What the YSF packets look like bit by bit: the bytes of a packet, the channel bits of its header, the places of the
    voice bits, and what every packet of an over says (ysf_bridge/ysf_protocol.go, ysf_bridge/ysf_client.go:103-154). */
module YsfLayout {
  import opened Bits
  import opened Buffers
  import opened Ysfd
  import opened YsfClient
  import Crc
  import Fich
  import Golay
  import MinimumDistance
  import Trellis
  import Vd2
  import Viterbi

  // ----- the packet -------------------------------------------------------------------------

  /** Character k of a callsign field. */
  function CharAt(callsign: seq<byte>, k: nat): byte {
    if k < |callsign| then callsign[k] else 32
  }

  /** The ten bytes from at on are the callsign, cut or with blanks behind it. */
  ghost predicate Field(p: seq<byte>, at: nat, callsign: seq<byte>)
    requires at + 10 <= |p|
  {
    forall k :: 0 <= k < 10 ==> p[at + k] == CharAt(callsign, k)
  }

  lemma PaddedIsField(p: seq<byte>, at: nat, callsign: seq<byte>)
    requires at + 10 <= |p| && p[at..at + 10] == Padded(callsign, 10)
    ensures Field(p, at, callsign)
  {
    forall k | 0 <= k < 10
      ensures p[at + k] == CharAt(callsign, k)
    {
      assert p[at + k] == p[at..at + 10][k];
    }
  }

  lemma CounterDigits(counter: byte, eot: bool)
    ensures CounterByte(counter, eot) == 2 * (counter % 128) + if eot then 1 else 0
  {
  }

  lemma FichDigits(fi: byte, fn: byte, ft: byte, dt: byte, dgid: byte)
    ensures FichBytes(fi, fn, ft, dt, dgid) == [64 * (fi % 4), 8 * (fn % 8) + ft % 8, 4 + dt % 4, dgid % 128, 0, 0]
  {
    assert (fi & 0x03) << 6 == 64 * (fi % 4);
    assert ((fn & 0x07) << 3) | (ft & 0x07) == 8 * (fn % 8) + ft % 8;
    assert (dt & 0x03) | 0x04 == 4 + dt % 4;
    assert dgid & 0x7F == dgid % 128;
  }

  /** Every packet that is built. */
  lemma PacketLayout(srcGW: seq<byte>, srcRadio: seq<byte>, dest: seq<byte>, counter: byte, eot: bool,
                     fi: byte, fn: byte, ft: byte, dt: byte, dgid: byte, payload: seq<byte>)
    requires |payload| == 90
    ensures var p := Packet(srcGW, srcRadio, dest, counter, eot, fi, fn, ft, dt, dgid, payload);
            && |p| == 155 && p[..4] == [0x59, 0x53, 0x46, 0x44]
            && Field(p, 4, srcGW) && Field(p, 14, srcRadio) && Field(p, 24, dest)
            && p[34] == 2 * (counter % 128) + (if eot then 1 else 0)
            && p[35..40] == [0xD4, 0x71, 0xC9, 0x63, 0x4D]
            && p[40..65] == Fich.Encode([64 * (fi % 4), 8 * (fn % 8) + ft % 8, 4 + dt % 4, dgid % 128, 0, 0])
            && p[65..] == payload
  {
    hide Padded, Fich.Encode, FichBytes, CounterByte, Field;
    CounterDigits(counter, eot);
    FichDigits(fi, fn, ft, dt, dgid);
    var p := Packet(srcGW, srcRadio, dest, counter, eot, fi, fn, ft, dt, dgid, payload);
    var h := Head(srcGW, srcRadio, dest, counter, eot);
    var air := Fich.Encode(FichBytes(fi, fn, ft, dt, dgid));
    assert p == h + air + payload;
    assert p[40..65] == air && p[65..] == payload && p[..40] == h && p[34] == h[34];
    assert p[..4] == h[..4] == SIGNATURE && p[35..40] == h[35..40] == SYNC;
    assert p[4..14] == h[4..14] && p[14..24] == h[14..24] && p[24..34] == h[24..34];
    PaddedIsField(p, 4, srcGW);
    PaddedIsField(p, 14, srcRadio);
    PaddedIsField(p, 24, dest);
  }

  lemma HeaderDigits(b0: byte, b1: byte, b2: byte, b3: byte)
    ensures (b0 >> 6) & 0x03 == b0 / 64 && (b1 >> 3) & 0x07 == b1 / 8 % 8 && b1 & 0x07 == b1 % 8
    ensures b2 & 0x03 == b2 % 4 && b3 & 0x7F == b3 % 128
  {
  }

  lemma CounterDigit(b: byte)
    ensures (b >> 1) & 0x7F == b / 2 && (b & 0x01 != 0 <==> b % 2 == 1)
  {
  }

  /** Every datagram that is long enough and begins with YSFD parses. Its fields are read by the same places; where the
      header is not accepted, its fields are 0. */
  lemma ParseLayout(data: seq<byte>)
    ensures Parse(data).Parsed? <==> |data| >= 155 && data[..4] == [0x59, 0x53, 0x46, 0x44]
    ensures Parse(data).Parsed? ==>
              var f := Parse(data).frame;
              && f.srcGateway == data[4..14] && f.srcRadio == data[14..24] && f.dest == data[24..34]
              && f.counter == data[34] / 2 && (f.eot <==> data[34] % 2 == 1) && f.payload == data[65..155]
              && if Fich.Accepts(data[40..65]) then
                   var h := Fich.Fields(Fich.Decoded(data[40..65]));
                   && f.fi == h[0] / 64 && f.fn == h[1] / 8 % 8 && f.ft == h[1] % 8 && f.dt == h[2] % 4
                   && f.dgId == h[3] % 128
                 else f.fi == f.fn == f.ft == f.dt == f.dgId == 0
  {
    hide Fich.Accepts, Fich.Decoded, Fich.Fields;
    if |data| >= 155 {
      CounterDigit(data[34]);
      var h := Fich.Fields(Fich.Decoded(data[40..65]));
      HeaderDigits(h[0], h[1], h[2], h[3]);
    }
  }

  // ----- the header -------------------------------------------------------------------------

  predicate BitAt(bits: seq<bool>, i: int)
    requires i < |bits|
  {
    i >= 0 && bits[i]
  }

  predicate Odd(a: bool, b: bool) { a != b }

  /** Symbol t of the convolutional code stands in the bits 2 (t / 5) + 40 (t mod 5) and the next: the parities of the
      coded bits t, t - 3 and t - 4, and t, t - 1, t - 2 and t - 4. */
  lemma HeaderBits(fich: seq<byte>, t: nat)
    requires |fich| >= 6 && t < 100
    ensures var c := Unpack(Fich.CodedBytes(Fich.Checked(fich)));
            var p := 2 * (t / 5) + 40 * (t % 5);
            && p + 1 < 200
            && ReadBit(Fich.Encode(fich), p) == Odd(BitAt(c, t), Odd(BitAt(c, t - 3), BitAt(c, t - 4)))
            && (ReadBit(Fich.Encode(fich), p + 1)
                == Odd(BitAt(c, t), Odd(BitAt(c, t - 1), Odd(BitAt(c, t - 2), BitAt(c, t - 4)))))
  {
    hide Fich.CodedBytes, Fich.Checked, Fich.Air, Fich.Slot, ReadBit, Unpack, Trellis.Output;
    var work, p := Fich.Checked(fich), 2 * (t / 5) + 40 * (t % 5);
    var w := Fich.Run(fich);
    Fich.SlotOf(t / 5, t % 5);
    Fich.AirBits(w, p);
    Fich.AirBits(w, p + 1);
    assert p % 2 == 0;
    OutputOf(Fich.CodedBytes(work), t);
  }

  lemma OutputOf(data: seq<byte>, t: nat)
    requires t < 100 <= 8 * |data|
    ensures var c, o := Unpack(data), Trellis.Output(Viterbi.EncoderRun(data, 100), t);
            && o.g1 == Odd(BitAt(c, t), Odd(BitAt(c, t - 3), BitAt(c, t - 4)))
            && o.g2 == Odd(BitAt(c, t), Odd(BitAt(c, t - 1), Odd(BitAt(c, t - 2), BitAt(c, t - 4))))
  {
    hide ReadBit, Unpack;
    var w, c := Viterbi.EncoderRun(data, 100), Unpack(data);
    assert w[t + 4] == BitAt(c, t) && w[t + 3] == BitAt(c, t - 1) && w[t + 2] == BitAt(c, t - 2);
    assert w[t + 1] == BitAt(c, t - 3) && w[t] == BitAt(c, t - 4);
  }

  function Upper(b: byte): byte { b / 16 }

  function Lower(b: byte): byte { b % 16 }

  function Both(upper: byte, lower: byte): byte { 16 * upper + lower }

  predicate Fits(code: bv32) { code <= 0xFFFFFF }

  lemma HighGroup(code: bv32, x: byte, y: byte)
    requires Fits(code) && Golay.Data(code) == Fich.GroupHigh(x, y)
    ensures Fich.WordBytes(code)[0] == x && Upper(Fich.WordBytes(code)[1]) == Upper(y)
  {
    assert Fich.Byte(code >> 16) == x && Fich.Byte(code >> 8) / 16 == y / 16;
  }

  lemma LowGroup(code: bv32, y: byte, z: byte)
    requires Fits(code) && Golay.Data(code) == Fich.GroupLow(y, z)
    ensures Fich.WordBytes(code)[0] == Both(Lower(y), Upper(z)) && Upper(Fich.WordBytes(code)[1]) == Lower(z)
  {
    FirstByte(code, y, z);
    SecondByte(code, y, z);
    hide *;
  }

  lemma FirstByte(code: bv32, y: byte, z: byte)
    requires Fits(code) && Golay.Data(code) == Fich.GroupLow(y, z)
    ensures Fich.WordBytes(code)[0] == Both(Lower(y), Upper(z))
  {
    MiddleBits(code, y, z);
    Halves(y, z);
    hide Both, Lower, Upper, Fits, Golay.Data, Fich.GroupLow;
  }

  function Merged(y: byte, z: byte): byte { ((y & 0xF) << 4) | (z >> 4) }

  lemma MiddleBits(code: bv32, y: byte, z: byte)
    requires Fits(code) && Golay.Data(code) == Fich.GroupLow(y, z)
    ensures Fich.WordBytes(code)[0] == Merged(y, z)
  {
    TopOfWord(code);
    TopOfGroup(y, z);
    hide Fits, Golay.Data, Fich.GroupLow, Fich.Byte, Merged;
  }

  function TopOf(data: bv32): byte { Fich.Byte(data >> 4) }

  lemma TopOfWord(code: bv32)
    requires Fits(code)
    ensures Fich.WordBytes(code)[0] == TopOf(Golay.Data(code))
  {
    assert (code >> 16) & 0xFF == (((code >> 12) & 0xFFF) >> 4) & 0xFF;
  }

  lemma TopOfGroup(y: byte, z: byte)
    ensures TopOf(Fich.GroupLow(y, z)) == Merged(y, z)
  {
  }

  lemma Halves(y: byte, z: byte)
    ensures Merged(y, z) == Both(Lower(y), Upper(z))
  {
  }

  lemma SecondByte(code: bv32, y: byte, z: byte)
    requires Fits(code) && Golay.Data(code) == Fich.GroupLow(y, z)
    ensures Upper(Fich.WordBytes(code)[1]) == Lower(z)
  {
    assert Fich.Byte(code >> 8) / 16 == z % 16;
  }

  lemma EncodedFits(data: bv32)
    requires data <= 0xFFF
    ensures Fits(Golay.Encode24(data)) && Golay.Data(Golay.Encode24(data)) == data
  {
    hide Golay.Encode24, Golay.Data;
    Golay.DecodesToData(data);
  }

  lemma HighWord(x: byte, y: byte)
    ensures var r := Fich.WordBytes(Golay.Encode24(Fich.GroupHigh(x, y))); r[0] == x && Upper(r[1]) == Upper(y)
  {
    hide Fich.GroupHigh, Fich.WordBytes, Golay.Encode24, Golay.Data, Fits, Upper;
    Fich.GroupsFit(x, y);
    EncodedFits(Fich.GroupHigh(x, y));
    HighGroup(Golay.Encode24(Fich.GroupHigh(x, y)), x, y);
  }

  lemma LowWord(y: byte, z: byte)
    ensures var r := Fich.WordBytes(Golay.Encode24(Fich.GroupLow(y, z)));
            r[0] == Both(Lower(y), Upper(z)) && Upper(r[1]) == Lower(z)
  {
    hide Fich.GroupLow, Fich.WordBytes, Golay.Encode24, Golay.Data, Fits, Upper, Lower, Both;
    Fich.GroupsFit(y, z);
    EncodedFits(Fich.GroupLow(y, z));
    LowGroup(Golay.Encode24(Fich.GroupLow(y, z)), y, z);
  }

  /** The coded bits are four words of three bytes, each twelve bits of the header with its check sequence and twelve of
      the Golay code, and eight zero bits behind them. */
  lemma CodedLayout(work: seq<byte>)
    requires |work| == 6
    ensures var d := Fich.CodedBytes(work);
            && d[0] == work[0] && Upper(d[1]) == Upper(work[1])
            && d[3] == Both(Lower(work[1]), Upper(work[2])) && Upper(d[4]) == Lower(work[2])
            && d[6] == work[3] && Upper(d[7]) == Upper(work[4])
            && d[9] == Both(Lower(work[4]), Upper(work[5])) && Upper(d[10]) == Lower(work[5])
            && d[12] == 0
  {
    hide Upper, Lower, Both, Fich.WordBytes, Fich.GroupHigh, Fich.GroupLow, Golay.Encode24;
    HighWord(work[0], work[1]);
    LowWord(work[1], work[2]);
    HighWord(work[3], work[4]);
    LowWord(work[4], work[5]);
  }

  /** What goes on the air for six bytes whose check sequence need not be right. */
  function AirOf(work: seq<byte>): (air: seq<byte>)
    requires |work| == 6
    ensures |air| == 25
  {
    Fich.Air(Viterbi.EncoderRun(Fich.CodedBytes(work), 100))
  }

  lemma RunOf(work: seq<byte>)
    requires |work| == 6
    ensures var w := Viterbi.EncoderRun(Fich.CodedBytes(work), 100);
            Trellis.EndState(w) == 0 && forall i :: 0 <= i < 96 ==> w[i + 4] == ReadBit(Fich.CodedBytes(work), i)
  {
    hide Fich.CodedBytes;
    var c := Fich.CodedBytes(work);
    Fich.LastIsZero(work);
    var w := Viterbi.EncoderRun(c, 100);
    forall j | 100 <= j < 104
      ensures !w[j]
    {
      assert w[j] == ReadBit(c, j - 4);
    }
  }

  lemma UndamagedDecodes(work: seq<byte>)
    requires |work| == 6
    ensures Fich.Decoded(AirOf(work)) == Fich.CodedBytes(work)[..12]
  {
    hide Fich.Air, Fich.CodedBytes, Trellis.Distance, Trellis.Survivor, Trellis.Metrics, Fich.Received;
    hide Trellis.EndState;
    var c := Fich.CodedBytes(work);
    var w := Viterbi.EncoderRun(c, 100);
    var air := AirOf(work);
    assert Fich.Damaged(air, {}, air);
    Fich.DistanceIsDamage(w, {}, air);
    RunOf(work);
    MinimumDistance.DamageStaysEarly(w, Fich.Received(air));
    hide Viterbi.EncoderRun, Fich.Damaged;
    var v := Trellis.Survivor(Fich.Received(air), 0);
    var d := Fich.Decoded(air);
    UnpackPack(v[4..100]);
    forall i | 0 <= i < 96
      ensures ReadBit(d, i) == ReadBit(c, i)
    {
      assert Unpack(d)[i] == v[4..100][i] == v[i + 4];
    }
    hide ReadBit, Fich.Decoded;
    forall k | 0 <= k < 12
      ensures d[k] == c[k]
    {
      SameByte(d, c, k);
    }
  }

  /** An undamaged header is accepted if and only if its check sequence is right, and read as it was sent either way. */
  lemma AcceptedIffChecked(work: seq<byte>)
    requires |work| == 6
    ensures Fich.Fields(Fich.Decoded(AirOf(work))) == work
    ensures Fich.Accepts(AirOf(work)) <==> Crc.Checks(work)
  {
    hide AirOf, Fich.Decoded, Fich.CodedBytes, Fich.Fields, Fich.GolayOk, Crc.Checks;
    UndamagedDecodes(work);
    Fich.FieldsOfCodedBytes(work);
  }

  // ----- voice ------------------------------------------------------------------------------

  /** The place of channel bit q of section j. */
  function ChannelPlace(j: nat, q: nat): nat { 144 * j + 40 + 4 * (q % 26) + q / 26 }

  /** What channel bit q carries: three times each of the first 27 bits of the frame, once each of the next 22. */
  predicate ChannelSource(frame: seq<byte>, q: nat)
    requires |frame| == 7
  {
    if q < 81 then ReadBit(frame, q / 3) else q < 103 && ReadBit(frame, q - 54)
  }

  predicate White(q: nat)
    requires q < 104
  {
    ReadBit([0x93, 0xD7, 0x51, 0x21, 0x9C, 0x2F, 0x6C, 0xD0, 0xEF, 0x0F, 0xF8, 0x3D, 0xF1], q)
  }

  lemma PlaceOf(q: nat)
    requires q < 104
    ensures Vd2.Position(q) == 4 * (q % 26) + q / 26
  {
    hide Vd2.INTERLEAVE;
    Vd2.TableRow(q / 26, q % 26);
  }

  lemma OverBit(frame: seq<byte>, q: nat)
    requires |frame| == 7 && q < 104
    ensures var p := 4 * (q % 26) + q / 26;
            p < 104 && ReadBit(Vd2.Over(Vd2.Voice(frame)), p) == (ChannelSource(frame, q) != White(q))
  {
    hide Vd2.Over, Vd2.Source, TestBit, Pack;
    PlaceOf(q);
    Vd2.SourceInvertsPosition(q);
    Vd2.OverBits(Vd2.Voice(frame), q);
    hide Vd2.Position;
    assert Vd2.Spread(Vd2.Voice(frame), q) == ChannelSource(frame, q);
  }

  lemma BitInPart(p: seq<byte>, lo: nat, hi: nat, i: nat)
    requires lo <= hi <= |p| && i < 8 * (hi - lo)
    ensures ReadBit(p[lo..hi], i) == ReadBit(p, 8 * lo + i)
  {
    hide TestBit;
    assert (8 * lo + i) / 8 == lo + i / 8 && (8 * lo + i) % 8 == i % 8;
  }

  /** Each section of a payload begins with five zero bytes, and behind them every channel bit of its frame stands in
      its place, whitened. */
  lemma VoiceInPayload(frames: seq<seq<byte>>, j: nat, q: nat)
    requires |frames| == 5 && (forall k :: 0 <= k < 5 ==> |frames[k]| == 7) && j < 5 && q < 104
    ensures var p := Vd2.Payload(frames);
            && ChannelPlace(j, q) < 720
            && ReadBit(p, ChannelPlace(j, q)) == (ChannelSource(frames[j], q) != White(q))
  {
    hide ReadBit, Vd2.Over, Vd2.Voice, Vd2.Payload, ChannelSource, White;
    var p := Vd2.Payload(frames);
    Vd2.OverOfPayload(frames, j);
    OverBit(frames[j], q);
    BitInPart(p, 18 * j + 5, 18 * (j + 1), 4 * (q % 26) + q / 26);
  }

  lemma {:induction false} DataChannelIsZero(frames: seq<seq<byte>>, j: nat, k: nat)
    requires (forall i :: 0 <= i < |frames| ==> |frames[i]| == 7) && j < |frames| && k < 5
    ensures Vd2.Payload(frames)[18 * j + k] == 0
  {
    hide Vd2.Over, Vd2.Voice;
    var n := |frames| - 1;
    var head := Vd2.Payload(frames[..n]);
    assert Vd2.Payload(frames) == (head + [0, 0, 0, 0, 0]) + Vd2.Over(Vd2.Voice(frames[n]));
    if j < n {
      DataChannelIsZero(frames[..n], j, k);
    }
  }

  /** And of any payload, a receiver takes voice bit i from the middle one of its three copies, or its only one. */
  lemma VoiceOutOfPayload(payload: seq<byte>, j: nat, i: nat)
    requires |payload| == 90 && j < 5 && i < 56
    ensures var q := if i < 27 then 3 * i + 1 else i + 54;
            && (i < 49 ==> ChannelPlace(j, q) < 720)
            && ReadBit(Vd2.Frames(payload)[j], i) == (i < 49 && ReadBit(payload, ChannelPlace(j, q)) != White(q))
  {
    hide ReadBit, Vd2.Frame, Vd2.Heard, White;
    var over := Vd2.OverAt(payload, j);
    FrameBit(Vd2.Heard(over), i);
    if i < 49 {
      var q := if i < 27 then 3 * i + 1 else i + 54;
      HeardBit(over, i);
      BitInPart(payload, 18 * j + 5, 18 * (j + 1), 4 * (q % 26) + q / 26);
    }
  }

  lemma FrameBit(voice: seq<bool>, i: nat)
    requires |voice| == 49 && i < 56
    ensures ReadBit(Vd2.Frame(voice), i) == (i < 49 && voice[i])
  {
    hide TestBit, Pack;
    var bits := voice + [false, false, false, false, false, false, false];
    UnpackPack(bits);
    assert Unpack(Vd2.Frame(voice))[i] == bits[i];
  }

  lemma HeardBit(over: seq<byte>, i: nat)
    requires |over| == 13 && i < 49
    ensures var q := if i < 27 then 3 * i + 1 else i + 54;
            4 * (q % 26) + q / 26 < 104 && Vd2.Heard(over)[i] == (ReadBit(over, 4 * (q % 26) + q / 26) != White(q))
  {
    hide TestBit, Vd2.Position;
    var q := if i < 27 then 3 * i + 1 else i + 54;
    PlaceOf(q);
    assert Vd2.Heard(over)[i] == Vd2.Received(over, q);
  }

  /** The whitening is the sequence of the register x^9 + x^5 + 1 from 100100111 on. */
  lemma WhiteningIsARegister(q: nat)
    requires q < 104
    ensures White(q) == if q < 9 then [true, false, false, true, false, false, true, true, true][q]
                        else White(q - 9) != White(q - 5)
  {
    hide White;
    if q < 9 {
      WhiteStarts(q);
    } else if q < 20 {
      FirstStretch(q);
    } else if q < 31 {
      SecondStretch(q);
    } else if q < 42 {
      ThirdStretch(q);
    } else if q < 53 {
      FourthStretch(q);
    } else if q < 64 {
      FifthStretch(q);
    } else if q < 75 {
      SixthStretch(q);
    } else if q < 86 {
      SeventhStretch(q);
    } else if q < 96 {
      EighthStretch(q);
    } else {
      LastStretch(q);
    }
  }

  lemma WhiteStarts(q: nat)
    requires q < 9
    ensures White(q) == [true, false, false, true, false, false, true, true, true][q]
  {
  }

  lemma FirstStretch(q: nat)
    requires 9 <= q < 20
    ensures White(q) == (White(q - 9) != White(q - 5))
  {
  }

  lemma SecondStretch(q: nat)
    requires 20 <= q < 31
    ensures White(q) == (White(q - 9) != White(q - 5))
  {
  }

  lemma ThirdStretch(q: nat)
    requires 31 <= q < 42
    ensures White(q) == (White(q - 9) != White(q - 5))
  {
  }

  lemma FourthStretch(q: nat)
    requires 42 <= q < 53
    ensures White(q) == (White(q - 9) != White(q - 5))
  {
  }

  lemma FifthStretch(q: nat)
    requires 53 <= q < 64
    ensures White(q) == (White(q - 9) != White(q - 5))
  {
  }

  lemma SixthStretch(q: nat)
    requires 64 <= q < 75
    ensures White(q) == (White(q - 9) != White(q - 5))
  {
  }

  lemma SeventhStretch(q: nat)
    requires 75 <= q < 86
    ensures White(q) == (White(q - 9) != White(q - 5))
  {
  }

  lemma EighthStretch(q: nat)
    requires 86 <= q < 96
    ensures White(q) == (White(q - 9) != White(q - 5))
  {
  }

  lemma LastStretch(q: nat)
    requires 96 <= q < 104
    ensures White(q) == (White(q - 9) != White(q - 5))
  {
  }

  // ----- an over ----------------------------------------------------------------------------

  /** The bytes that all packets of an over have in common. */
  ghost predicate FromStation(p: seq<byte>, callsign: seq<byte>)
    requires |p| == 155
  {
    && p[..4] == [0x59, 0x53, 0x46, 0x44] && p[35..40] == [0xD4, 0x71, 0xC9, 0x63, 0x4D]
    && Field(p, 4, callsign) && Field(p, 14, callsign) && Field(p, 24, [0x41, 0x4C, 0x4C])
  }

  /** The payload of five frames. */
  ghost predicate CarriesFrames(payload: seq<byte>, voice: Voice)
    requires |payload| == 90
  {
    && (forall j, k :: 0 <= j < 5 && 0 <= k < 5 ==> ZeroAt(payload, j, k))
    && (forall j, q :: 0 <= j < 5 && 0 <= q < 104 ==> BitInPlace(payload, voice[j], j, q))
  }

  ghost predicate ZeroAt(payload: seq<byte>, j: nat, k: nat)
    requires |payload| == 90 && j < 5 && k < 5
  {
    payload[18 * j + k] == 0
  }

  ghost predicate BitInPlace(payload: seq<byte>, frame: seq<byte>, j: nat, q: nat)
    requires |payload| == 90 && |frame| == 7 && j < 5 && q < 104
  {
    ReadBit(payload, ChannelPlace(j, q)) == (ChannelSource(frame, q) != White(q))
  }

  lemma PayloadCarriesFrames(voice: Voice)
    ensures CarriesFrames(Vd2.Payload(voice), voice)
  {
    hide BitInPlace, ZeroAt, Vd2.Payload;
    forall j, k | 0 <= j < 5 && 0 <= k < 5
      ensures ZeroAt(Vd2.Payload(voice), j, k)
    {
      DataChannelIsZero(voice, j, k);
      IsZero(Vd2.Payload(voice), j, k);
    }
    forall j, q | 0 <= j < 5 && 0 <= q < 104
      ensures BitInPlace(Vd2.Payload(voice), voice[j], j, q)
    {
      VoiceInPayload(voice, j, q);
      IsInPlace(Vd2.Payload(voice), voice[j], j, q);
    }
  }

  lemma IsZero(payload: seq<byte>, j: nat, k: nat)
    requires |payload| == 90 && j < 5 && k < 5 && payload[18 * j + k] == 0
    ensures ZeroAt(payload, j, k)
  {
  }

  lemma IsInPlace(payload: seq<byte>, frame: seq<byte>, j: nat, q: nat)
    requires |payload| == 90 && |frame| == 7 && j < 5 && q < 104
    requires ChannelPlace(j, q) < 720 && ReadBit(payload, ChannelPlace(j, q)) == (ChannelSource(frame, q) != White(q))
    ensures BitInPlace(payload, frame, j, q)
  {
  }

  lemma CommonBytes(callsign: seq<byte>, counter: byte, eot: bool, fi: byte, fn: byte, dgid: byte, payload: seq<byte>)
    requires |payload| == 90
    ensures var p := Packet(callsign, callsign, ALL, counter, eot, fi, fn, LAST_FN, DT_VD2, dgid, payload);
            && FromStation(p, callsign) && p[65..] == payload
            && p[34] == 2 * (counter % 128) + (if eot then 1 else 0)
            && p[40..65] == Fich.Encode([64 * (fi % 4), 8 * (fn % 8) + 6, 6, dgid % 128, 0, 0])
  {
    hide Packet, Field, Fich.Encode;
    assert ALL == [0x41, 0x4C, 0x4C];
    PacketLayout(callsign, callsign, ALL, counter, eot, fi, fn, LAST_FN, DT_VD2, dgid, payload);
    Constants();
  }

  lemma Constants()
    ensures LAST_FN % 8 == 6 && 4 + DT_VD2 % 4 == 6
  {
  }

  lemma CounterIsNumber(counter: byte, k: nat)
    requires Num(counter) == k % 128
    ensures Num(2 * (counter % 128)) == 2 * (k % 128) && Num(2 * (counter % 128) + 1) == 2 * (k % 128) + 1
  {
    Doubled(counter);
    hide Num;
  }

  lemma Doubled(counter: byte)
    requires Num(counter) < 128
    ensures Num(2 * (counter % 128)) == 2 * Num(counter) && Num(2 * (counter % 128) + 1) == 2 * Num(counter) + 1
  {
  }

  lemma HeaderNumbers(fn: byte)
    requires Num(fn) < 7
    ensures 64 * (FI_HEADER % 4) == 0 && 64 * (FI_COMM % 4) == 64 && 64 * (FI_TERM % 4) == 128
    ensures 8 * (0 % 8) + 6 == (6 as byte) && 2 * (0 % 128) == (0 as byte)
    ensures 8 * (fn % 8) + 6 == 8 * fn + 6
  {
    assert fn < 8;
  }

  lemma HeaderOnTheWire(callsign: seq<byte>, dgid: byte)
    ensures var p := Header(callsign, dgid);
            && |p| == 155 && FromStation(p, callsign) && Num(p[34]) == 0
            && p[40..65] == Fich.Encode([0, 6, 6, dgid % 128, 0, 0]) && p[65..] == seq(90, _ => 0)
  {
    hide Packet, FromStation, Fich.Encode, Num;
    FirstCounts();
    HeaderNumbers(0);
    CommonBytes(callsign, 0, false, FI_HEADER, 0, dgid, EmptyPayload());
  }

  lemma TermOnTheWire(callsign: seq<byte>, dgid: byte, n: nat)
    ensures var p := Term(callsign, dgid, CounterAt(n));
            && |p| == 155 && FromStation(p, callsign) && Num(p[34]) == 2 * ((n + 1) % 128) + 1
            && p[40..65] == Fich.Encode([128, 6, 6, dgid % 128, 0, 0]) && p[65..] == seq(90, _ => 0)
  {
    hide Packet, FromStation, Fich.Encode, Num, CounterAt;
    FirstCounts();
    CounterCounts(n);
    CounterIsNumber(CounterAt(n), n + 1);
    HeaderNumbers(0);
    CommonBytes(callsign, CounterAt(n), true, FI_TERM, 0, dgid, EmptyPayload());
  }

  lemma CommOnTheWire(callsign: seq<byte>, dgid: byte, k: nat, voice: Voice)
    ensures var p := Comm(callsign, dgid, CounterAt(k), FnAt(k), voice);
            && |p| == 155 && FromStation(p, callsign) && Num(p[34]) == 2 * ((k + 1) % 128)
            && Num(FnAt(k)) == k % 7
            && p[40..65] == Fich.Encode([64, 8 * FnAt(k) + 6, 6, dgid % 128, 0, 0])
            && CarriesFrames(p[65..], voice)
  {
    hide Packet, FromStation, CarriesFrames, Fich.Encode, Vd2.Payload, Num, CounterAt, FnAt;
    CounterCounts(k);
    FnCounts(k);
    CounterIsNumber(CounterAt(k), k + 1);
    HeaderNumbers(FnAt(k));
    PayloadCarriesFrames(voice);
    CommonBytes(callsign, CounterAt(k), false, FI_COMM, FnAt(k), dgid, Vd2.Payload(voice));
  }

  /** An over of n voice packets is a header, those packets and a terminator. Every packet k carries the callsign of the
      station twice, ALL as its destination and the number k modulo 128; the last has the end bit besides. The header
      fields are the kind, 0, 1 or 2, the frame number, the last frame number 6, the VoIP bit, VD mode 2 and the
      group. */
  lemma OverOnTheWire(callsign: seq<byte>, dgid: byte, voice: seq<Voice>, k: nat)
    requires k < |voice| + 2
    ensures var sent, last := Transmission(callsign, dgid, voice), |voice| + 1;
            var p := sent[k];
            && |sent| == last + 1 && |p| == 155 && FromStation(p, callsign)
            && Num(p[34]) == 2 * (k % 128) + (if k == last then 1 else 0)
            && (k == 0 ==> p[40..65] == Fich.Encode([0, 6, 6, dgid % 128, 0, 0]) && p[65..] == seq(90, _ => 0))
            && (k == last ==> p[40..65] == Fich.Encode([128, 6, 6, dgid % 128, 0, 0]) && p[65..] == seq(90, _ => 0))
            && (0 < k < last ==>
                  && CarriesFrames(p[65..], voice[k - 1])
                  && exists fn: byte ::
                       Num(fn) == (k - 1) % 7 && p[40..65] == Fich.Encode([64, 8 * fn + 6, 6, dgid % 128, 0, 0]))
  {
    hide Header, Comm, Term, FromStation, CarriesFrames, Fich.Encode, Num, CounterAt, FnAt;
    if k == 0 {
      HeaderOnTheWire(callsign, dgid);
    } else if k == |voice| + 1 {
      TermOnTheWire(callsign, dgid, |voice|);
    } else {
      CommAt(callsign, dgid, voice, k - 1);
      CommOnTheWire(callsign, dgid, k - 1, voice[k - 1]);
    }
  }
}
