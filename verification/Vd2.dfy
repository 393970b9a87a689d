/** Voice in VD mode 2: forty-nine AMBE bits per section, the first twenty-seven sent three times, whitened and
    interleaved over 104 bits (ysf_bridge/ysf_protocol.go). */
module Vd2 {
  import opened Bits

  const AMBE_BYTES := 7
  const VOICE_BITS := 49
  const VCH_BYTES := 13
  const VCH_BITS := 104
  const DCH_BYTES := 5
  const SECTION_BYTES := 18
  const PAYLOAD_BYTES := 90

  // ----- tables -----------------------------------------------------------------------------

  const INTERLEAVE: seq<seq<nat>> := [
    [0, 4, 8, 12, 16, 20, 24, 28, 32, 36, 40, 44, 48, 52, 56, 60, 64, 68, 72, 76, 80, 84, 88, 92, 96, 100],
    [1, 5, 9, 13, 17, 21, 25, 29, 33, 37, 41, 45, 49, 53, 57, 61, 65, 69, 73, 77, 81, 85, 89, 93, 97, 101],
    [2, 6, 10, 14, 18, 22, 26, 30, 34, 38, 42, 46, 50, 54, 58, 62, 66, 70, 74, 78, 82, 86, 90, 94, 98, 102],
    [3, 7, 11, 15, 19, 23, 27, 31, 35, 39, 43, 47, 51, 55, 59, 63, 67, 71, 75, 79, 83, 87, 91, 95, 99, 103]
  ]

  /** The first thirteen of the source's twenty whitening bytes; a voice channel has no more. */
  const WHITENING: seq<byte> := [
    0x93, 0xD7, 0x51, 0x21, 0x9C, 0x2F, 0x6C, 0xD0, 0xEF, 0x0F, 0xF8, 0x3D, 0xF1
  ]

  /** Where bit i of the voice channel goes. */
  function Position(i: nat): nat
    requires i < VCH_BITS
  {
    INTERLEAVE[i / 26][i % 26]
  }

  /** Which bit of the voice channel stands at place p. */
  function Source(p: nat): (i: nat)
    requires p < VCH_BITS
    ensures i < VCH_BITS
  {
    26 * (p % 4) + p / 4
  }

  lemma TableRow(r: nat, c: nat)
    requires r < 4 && c < 26
    ensures INTERLEAVE[r][c] == 4 * c + r
  {
    if
    case r == 0 =>
    case r == 1 =>
    case r == 2 =>
    case r == 3 =>
  }

  /** The table is a permutation of the 104 places. */
  lemma SourceInvertsPosition(i: nat)
    requires i < VCH_BITS
    ensures Position(i) < VCH_BITS && Source(Position(i)) == i
  {
    hide INTERLEAVE;
    TableRow(i / 26, i % 26);
  }

  lemma PositionInvertsSource(p: nat)
    requires p < VCH_BITS
    ensures Position(Source(p)) == p
  {
    var i := Source(p);
    assert i / 26 == p % 4 && i % 26 == p / 4;
    hide INTERLEAVE;
    TableRow(i / 26, i % 26);
  }

  // ----- one section as functions -----------------------------------------------------------

  function Voice(frame: seq<byte>): (b: seq<bool>)
    requires |frame| == AMBE_BYTES
    ensures |b| == VOICE_BITS
  {
    Unpack(frame)[..VOICE_BITS]
  }

  /** Bit q of the voice channel before whitening. */
  predicate Spread(voice: seq<bool>, q: nat)
    requires |voice| == VOICE_BITS && q < VCH_BITS
  {
    if q < 81 then voice[q / 3] else if q < 103 then voice[q - 54] else false
  }

  predicate Whitened(b: bool, q: nat)
    requires q < VCH_BITS
  {
    b != ReadBit(WHITENING, q)
  }

  /** The thirteen voice-channel bytes on the air. */
  function Over(voice: seq<bool>): (over: seq<byte>)
    requires |voice| == VOICE_BITS
    ensures |over| == VCH_BYTES
  {
    Pack(seq(VCH_BITS, p requires 0 <= p < VCH_BITS => Whitened(Spread(voice, Source(p)), Source(p))))
  }

  /** Bit q of the voice channel after deinterleaving and whitening again. */
  predicate Received(over: seq<byte>, q: nat)
    requires |over| == VCH_BYTES && q < VCH_BITS
  {
    Whitened(Deinterleaved(over, q), q)
  }

  predicate Deinterleaved(over: seq<byte>, q: nat)
    requires |over| == VCH_BYTES && q < VCH_BITS
  {
    SourceInvertsPosition(q);
    ReadBit(over, Position(q))
  }

  /** The channel bit that voice bit i is read from: the middle one of its three copies, or its only one. */
  function Sampled(i: nat): (q: nat)
    requires i < VOICE_BITS
    ensures q < VCH_BITS
  {
    if i < 27 then 3 * i + 1 else i + 54
  }

  function Heard(over: seq<byte>): (voice: seq<bool>)
    requires |over| == VCH_BYTES
    ensures |voice| == VOICE_BITS
  {
    seq(VOICE_BITS, i requires 0 <= i < VOICE_BITS => Received(over, Sampled(i)))
  }

  function Frame(voice: seq<bool>): (frame: seq<byte>)
    requires |voice| == VOICE_BITS
    ensures |frame| == AMBE_BYTES
  {
    Pack(voice + [false, false, false, false, false, false, false])
  }

  /** Section j of the payload holds five zero bytes and the voice channel of frame j. */
  function Payload(frames: seq<seq<byte>>): (payload: seq<byte>)
    requires forall j :: 0 <= j < |frames| ==> |frames[j]| == AMBE_BYTES
    ensures |payload| == SECTION_BYTES * |frames|
  {
    if |frames| == 0 then []
    else
      var k := |frames| - 1;
      Payload(frames[..k]) + [0, 0, 0, 0, 0] + Over(Voice(frames[k]))
  }

  function OverAt(payload: seq<byte>, j: nat): (over: seq<byte>)
    requires SECTION_BYTES * (j + 1) <= |payload|
    ensures |over| == VCH_BYTES
  {
    payload[SECTION_BYTES * j + DCH_BYTES..SECTION_BYTES * (j + 1)]
  }

  function Frames(payload: seq<byte>): (frames: seq<seq<byte>>)
    requires |payload| == PAYLOAD_BYTES
    ensures |frames| == 5
    ensures forall j :: 0 <= j < 5 ==> |frames[j]| == AMBE_BYTES
  {
    seq(5, j requires 0 <= j < 5 => Frame(Heard(OverAt(payload, j))))
  }

  // ----- the code ---------------------------------------------------------------------------

  function XorByte(x: byte, w: byte): byte { x ^ w }

  lemma XorBits(x: byte, w: byte, j: nat)
    requires j < 8
    ensures TestBit(XorByte(x, w), j) == (TestBit(x, j) != TestBit(w, j))
  {
    var m := BIT_MASK[j];
    assert m == 0x80 || m == 0x40 || m == 0x20 || m == 0x10 || m == 0x08 || m == 0x04 || m == 0x02 || m == 0x01;
    XorUnderMask(x, w, m);
  }

  lemma XorUnderMask(x: byte, w: byte, m: byte)
    requires m == 0x80 || m == 0x40 || m == 0x20 || m == 0x10 || m == 0x08 || m == 0x04 || m == 0x02 || m == 0x01
    ensures ((x ^ w) & m != 0) == ((x & m != 0) != (w & m != 0))
  {
  }

  /** XORs the whitening bytes over a voice channel; doing it twice changes nothing. */
  method Whiten(vch: array<byte>)
    requires vch.Length == VCH_BYTES
    modifies vch
    ensures forall q :: 0 <= q < VCH_BITS ==> Unpack(vch[..])[q] == Whitened(old(Unpack(vch[..]))[q], q)
  {
    hide TestBit, XorByte;
    ghost var was := vch[..];
    for i := 0 to VCH_BYTES
      invariant forall k :: 0 <= k < i ==> vch[k] == XorByte(was[k], WHITENING[k])
      invariant forall k :: i <= k < VCH_BYTES ==> vch[k] == was[k]
    {
      vch[i] := XorByte(vch[i], WHITENING[i]);
    }
    forall q | 0 <= q < VCH_BITS
      ensures Unpack(vch[..])[q] == Whitened(Unpack(was)[q], q)
    {
      XorBits(was[q / 8], WHITENING[q / 8], q % 8);
    }
  }

  /** Takes the voice channel off the air: deinterleaves and whitens it. */
  method ReadChannel(over: seq<byte>) returns (vch: array<byte>)
    requires |over| == VCH_BYTES
    ensures fresh(vch) && vch.Length == VCH_BYTES
    ensures forall q :: 0 <= q < VCH_BITS ==> Unpack(vch[..])[q] == Received(over, q)
  {
    hide Deinterleaved, ReadBit, Position;
    vch := DeinterleaveChannel(over);
    Whiten(vch);
  }

  method DeinterleaveChannel(over: seq<byte>) returns (vch: array<byte>)
    requires |over| == VCH_BYTES
    ensures fresh(vch) && vch.Length == VCH_BYTES
    ensures forall q :: 0 <= q < VCH_BITS ==> Unpack(vch[..])[q] == Deinterleaved(over, q)
  {
    hide Deinterleaved, ReadBit, Position;
    vch := new byte[VCH_BYTES](_ => 0);
    ZeroBits(vch[..]);
    for i := 0 to VCH_BITS
      invariant forall q :: 0 <= q < i ==> Unpack(vch[..])[q] == Deinterleaved(over, q)
      invariant forall q :: i <= q < VCH_BITS ==> !Unpack(vch[..])[q]
    {
      if Deinterleaved(over, i) {
        WriteBit(vch, i, true);
      }
    }
  }

  /** Reads the forty-nine voice bits out of a voice channel. */
  method Sample(vch: seq<byte>) returns (ambeBits: seq<bool>)
    requires |vch| == VCH_BYTES
    ensures |ambeBits| == VOICE_BITS
    ensures forall i :: 0 <= i < VOICE_BITS ==> ambeBits[i] == Unpack(vch)[Sampled(i)]
  {
    hide ReadBit;
    var bits := new bool[VOICE_BITS];
    for i := 0 to 12
      invariant forall k :: 0 <= k < i ==> bits[k] == Unpack(vch)[Sampled(k)]
    {
      bits[i] := ReadBit(vch, 3 * i + 1);
    }
    for i := 0 to 12
      invariant forall k :: 0 <= k < 12 + i ==> bits[k] == Unpack(vch)[Sampled(k)]
    {
      bits[12 + i] := ReadBit(vch, 3 * (i + 12) + 1);
    }
    for i := 0 to 3
      invariant forall k :: 0 <= k < 24 + i ==> bits[k] == Unpack(vch)[Sampled(k)]
    {
      bits[24 + i] := ReadBit(vch, 3 * (i + 24) + 1);
    }
    for i := 0 to 22
      invariant forall k :: 0 <= k < 27 + i ==> bits[k] == Unpack(vch)[Sampled(k)]
    {
      bits[27 + i] := ReadBit(vch, i + 81);
    }
    ambeBits := bits[..];
  }

  method PackFrame(voice: seq<bool>) returns (frame: seq<byte>)
    requires |voice| == VOICE_BITS
    ensures frame == Frame(voice)
  {
    var buf := new byte[AMBE_BYTES](_ => 0);
    ZeroBits(buf[..]);
    hide ReadBit;
    for i := 0 to VOICE_BITS
      invariant forall k :: 0 <= k < i ==> Unpack(buf[..])[k] == voice[k]
      invariant forall k :: i <= k < 56 ==> !Unpack(buf[..])[k]
    {
      if voice[i] {
        WriteBit(buf, i, true);
      }
    }
    frame := buf[..];
    var bits := voice + [false, false, false, false, false, false, false];
    UnpackPack(bits);
    assert Unpack(frame) == bits;
    UnpackInjective(frame, Pack(bits));
  }

  method ExtractVd2Ambe(payload: seq<byte>) returns (frames: seq<seq<byte>>)
    requires |payload| == PAYLOAD_BYTES
    ensures frames == Frames(payload)
  {
    hide Received, Frame;
    frames := [];
    for j := 0 to 5
      invariant |frames| == j && forall k :: 0 <= k < j ==> frames[k] == Frame(Heard(OverAt(payload, k)))
    {
      var section := payload[j * SECTION_BYTES..(j + 1) * SECTION_BYTES];
      var over := section[DCH_BYTES..DCH_BYTES + VCH_BYTES];
      assert over == OverAt(payload, j);
      var vch := ReadChannel(over);
      var voice := Sample(vch[..]);
      assert voice == Heard(over);
      var frame := PackFrame(voice);
      frames := frames + [frame];
    }
  }

  /** Writes the forty-nine voice bits into a voice channel, the first twenty-seven three times. */
  method WriteChannel(ambeBits: seq<bool>) returns (vch: array<byte>)
    requires |ambeBits| == VOICE_BITS
    ensures fresh(vch) && vch.Length == VCH_BYTES
    ensures forall q :: 0 <= q < VCH_BITS ==> Unpack(vch[..])[q] == Spread(ambeBits, q)
  {
    vch := new byte[VCH_BYTES](_ => 0);
    ZeroBits(vch[..]);
    hide ReadBit;
    for i := 0 to 12
      invariant forall q :: 0 <= q < 3 * i ==> Unpack(vch[..])[q] == Spread(ambeBits, q)
      invariant !Unpack(vch[..])[103]
    {
      WriteTriplet(vch, i, ambeBits[i]);
    }
    for i := 0 to 12
      invariant forall q :: 0 <= q < 3 * (i + 12) ==> Unpack(vch[..])[q] == Spread(ambeBits, q)
      invariant !Unpack(vch[..])[103]
    {
      WriteTriplet(vch, i + 12, ambeBits[12 + i]);
    }
    for i := 0 to 3
      invariant forall q :: 0 <= q < 3 * (i + 24) ==> Unpack(vch[..])[q] == Spread(ambeBits, q)
      invariant !Unpack(vch[..])[103]
    {
      WriteTriplet(vch, i + 24, ambeBits[24 + i]);
    }
    WriteSingles(vch, ambeBits);
  }

  method WriteSingles(vch: array<byte>, ambeBits: seq<bool>)
    requires vch.Length == VCH_BYTES && |ambeBits| == VOICE_BITS
    requires forall q :: 0 <= q < 81 ==> Unpack(vch[..])[q] == Spread(ambeBits, q)
    requires !Unpack(vch[..])[103]
    modifies vch
    ensures forall q :: 0 <= q < VCH_BITS ==> Unpack(vch[..])[q] == Spread(ambeBits, q)
  {
    hide ReadBit;
    for i := 0 to 22
      invariant forall q :: 0 <= q < i + 81 ==> Unpack(vch[..])[q] == Spread(ambeBits, q)
      invariant !Unpack(vch[..])[103]
    {
      WriteBit(vch, i + 81, ambeBits[27 + i]);
    }
  }

  method WriteTriplet(vch: array<byte>, i: nat, b: bool)
    requires vch.Length == VCH_BYTES && i < 27
    modifies vch
    ensures Unpack(vch[..]) == old(Unpack(vch[..]))[3 * i := b][3 * i + 1 := b][3 * i + 2 := b]
  {
    WriteBit(vch, 3 * i + 0, b);
    WriteBit(vch, 3 * i + 1, b);
    WriteBit(vch, 3 * i + 2, b);
  }

  /** Interleaves a whitened voice channel. */
  method InterleaveChannel(vch: seq<byte>) returns (over: seq<byte>)
    requires |vch| == VCH_BYTES
    ensures |over| == VCH_BYTES
    ensures forall p :: 0 <= p < VCH_BITS ==> Unpack(over)[p] == Unpack(vch)[Source(p)]
  {
    var buf := new byte[VCH_BYTES](_ => 0);
    ZeroBits(buf[..]);
    hide ReadBit, Source, Position;
    ghost var bits := Unpack(vch);
    for i := 0 to VCH_BITS
      invariant forall p :: 0 <= p < VCH_BITS ==> Unpack(buf[..])[p] == (Source(p) < i && bits[Source(p)])
    {
      SourceInvertsPosition(i);
      forall p | 0 <= p < VCH_BITS && Source(p) == i
        ensures p == Position(i)
      {
        PositionInvertsSource(p);
      }
      if ReadBit(vch, i) {
        WriteBit(buf, Position(i), true);
      }
    }
    over := buf[..];
  }

  method PackSection(frame: seq<byte>) returns (over: seq<byte>)
    requires |frame| == AMBE_BYTES
    ensures over == Over(Voice(frame))
  {
    hide ReadBit, Spread, Source, Pack;
    var ambeBits := Voice(frame);
    var vch := WriteChannel(ambeBits);
    Whiten(vch);
    over := InterleaveChannel(vch[..]);
    ghost var bits := seq(VCH_BITS, p requires 0 <= p < VCH_BITS => Whitened(Spread(ambeBits, Source(p)), Source(p)));
    hide Whitened;
    UnpackPack(bits);
    assert Unpack(over) == bits;
    UnpackInjective(over, Pack(bits));
  }

  method PutOver(payload: array<byte>, at: nat, over: seq<byte>)
    requires |over| == VCH_BYTES && at + VCH_BYTES <= payload.Length
    modifies payload
    ensures payload[..at + VCH_BYTES] == old(payload[..at]) + over
    ensures forall k :: at + VCH_BYTES <= k < payload.Length ==> payload[k] == old(payload[k])
  {
    for i := 0 to VCH_BYTES
      invariant payload[..at + i] == old(payload[..at]) + over[..i]
      invariant forall k :: at + i <= k < payload.Length ==> payload[k] == old(payload[k])
    {
      payload[at + i] := over[i];
    }
    assert over[..VCH_BYTES] == over;
  }

  method PackVd2Ambe(frames: seq<seq<byte>>) returns (payload: array<byte>)
    requires |frames| == 5 && forall j :: 0 <= j < 5 ==> |frames[j]| == AMBE_BYTES
    ensures fresh(payload) && payload[..] == Payload(frames)
  {
    hide Over, Voice;
    payload := new byte[PAYLOAD_BYTES](_ => 0);
    for j := 0 to 5
      invariant payload[..SECTION_BYTES * j] == Payload(frames[..j])
      invariant forall k :: SECTION_BYTES * j <= k < PAYLOAD_BYTES ==> payload[k] == 0
    {
      var over := PackSection(frames[j]);
      ghost var done := payload[..SECTION_BYTES * j];
      assert payload[..SECTION_BYTES * j + DCH_BYTES] == done + [0, 0, 0, 0, 0];
      PutOver(payload, SECTION_BYTES * j + DCH_BYTES, over);
      assert frames[..j + 1][..j] == frames[..j];
      assert payload[..SECTION_BYTES * (j + 1)] == done + [0, 0, 0, 0, 0] + over;
    }
    assert frames[..5] == frames && payload[..PAYLOAD_BYTES] == payload[..];
  }

  // ----- what comes back --------------------------------------------------------------------

  lemma OverBits(voice: seq<bool>, q: nat)
    requires |voice| == VOICE_BITS && q < VCH_BITS
    ensures Received(Over(voice), q) == Spread(voice, q)
  {
    hide Source, Position, Spread, ReadBit;
    var bits := seq(VCH_BITS, p requires 0 <= p < VCH_BITS => Whitened(Spread(voice, Source(p)), Source(p)));
    UnpackPack(bits);
    SourceInvertsPosition(q);
    assert Unpack(Over(voice))[Position(q)] == bits[Position(q)];
  }

  lemma HeardIsSent(voice: seq<bool>)
    requires |voice| == VOICE_BITS
    ensures Heard(Over(voice)) == voice
  {
    hide Over, Received;
    forall i | 0 <= i < VOICE_BITS
      ensures Heard(Over(voice))[i] == voice[i]
    {
      OverBits(voice, Sampled(i));
    }
  }

  /** The frame without its seven unused bits. */
  function Masked(frame: seq<byte>): seq<byte>
    requires |frame| == AMBE_BYTES
  {
    frame[..6] + [frame[6] & 0x80]
  }

  lemma TopBitOnly(x: byte, j: nat)
    requires j < 8
    ensures TestBit(x & 0x80, j) == (j == 0 && TestBit(x, j))
  {
  }

  lemma FrameOfVoice(frame: seq<byte>)
    requires |frame| == AMBE_BYTES
    ensures Frame(Voice(frame)) == Masked(frame)
  {
    hide TestBit;
    var bits := Voice(frame) + [false, false, false, false, false, false, false];
    UnpackPack(bits);
    forall i | 0 <= i < 56
      ensures Unpack(Masked(frame))[i] == bits[i]
    {
      TopBitOnly(frame[6], i % 8);
    }
    assert Unpack(Masked(frame)) == bits;
    UnpackInjective(Frame(Voice(frame)), Masked(frame));
  }

  lemma {:induction false} OverOfPayload(frames: seq<seq<byte>>, j: nat)
    requires j < |frames| && forall j :: 0 <= j < |frames| ==> |frames[j]| == AMBE_BYTES
    ensures OverAt(Payload(frames), j) == Over(Voice(frames[j]))
  {
    hide Over, Voice;
    var k := |frames| - 1;
    var p, head, over := Payload(frames), Payload(frames[..k]), Over(Voice(frames[k]));
    assert p == (head + [0, 0, 0, 0, 0]) + over;
    if j < k {
      OverOfPayload(frames[..k], j);
      assert SECTION_BYTES * (j + 1) <= |head|;
      assert OverAt(p, j) == OverAt(head, j);
    } else {
      assert OverAt(p, j) == over;
    }
  }

  /** Five frames come back from their payload bit for bit, but for the seven bits of the last byte that are not
      voice. */
  lemma VoiceRoundTrip(frames: seq<seq<byte>>)
    requires |frames| == 5 && forall j :: 0 <= j < 5 ==> |frames[j]| == AMBE_BYTES
    ensures Frames(Payload(frames))
            == [Masked(frames[0]), Masked(frames[1]), Masked(frames[2]), Masked(frames[3]), Masked(frames[4])]
  {
    hide Over, Voice, Heard, Frame, Masked, Payload, OverAt;
    forall j | 0 <= j < 5
      ensures Frames(Payload(frames))[j] == Masked(frames[j])
    {
      OverOfPayload(frames, j);
      HeardIsSent(Voice(frames[j]));
      FrameOfVoice(frames[j]);
    }
  }
}
