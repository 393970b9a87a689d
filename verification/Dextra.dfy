/** The D-STAR voice header and its check sequence: CRC-CCITT reflected, register 0xFFFF, complemented
    (xlx_bridge/dextra_protocol.go). */
module Dextra {
  import opened Bits
  import opened Buffers
  import opened Ccitt

  function DstarCrc(data: seq<byte>): bv16 { Sequence(LowFirst, data) }

  method DstarCRC(data: seq<byte>) returns (crc: bv16)
    ensures crc == DstarCrc(data)
  {
    hide Step, Xor, Widen;
    crc := 0xFFFF;
    for k := 0 to |data|
      invariant crc == Register(LowFirst, data[..k])
    {
      assert data[..k + 1][..k] == data[..k];
      crc := Xor(crc, Widen(data[k]));
      ghost var start := crc;
      for i := 0 to 8
        invariant crc == Steps(LowFirst, start, i)
      {
        crc := NextRegister(crc);
      }
    }
    assert data[..|data|] == data;
    FlippedIsComplement(crc);
    crc := Xor(crc, 0xFFFF);
  }

  lemma FlippedIsComplement(c: bv16)
    ensures Xor(c, 0xFFFF) == Complement(c)
  {
  }

  method NextRegister(register: bv16) returns (crc: bv16)
    ensures crc == Step(LowFirst, register)
  {
    crc := register;
    if crc & 1 != 0 {
      crc := (crc >> 1) ^ 0x8408;
    } else {
      crc := crc >> 1;
    }
  }

  // ----- the voice header -------------------------------------------------------------------

  const HEADER_SIZE := 56
  /** DSVT, then a header for D-STAR voice. */
  const PREAMBLE: seq<byte> := [0x44, 0x53, 0x56, 0x54, 0x10, 0, 0, 0, 0x20, 0, 0x01, 0x02]

  /** The 39 bytes that the check sequence covers. */
  function Body(rpt2: seq<byte>, rpt1: seq<byte>, urCall: seq<byte>, myCall: seq<byte>,
                mySuffix: seq<byte>): (b: seq<byte>)
    ensures |b| == 39
  {
    [0, 0, 0] + Padded(rpt2, 8) + Padded(rpt1, 8) + Padded(urCall, 8) + Padded(myCall, 8) + Padded(mySuffix, 4)
  }

  function Front(streamID: bv16): (front: seq<byte>)
    ensures |front| == 15
  {
    PREAMBLE + [High(streamID), Low(streamID), 0x80]
  }

  function VoiceHeader(rpt2: seq<byte>, rpt1: seq<byte>, urCall: seq<byte>, myCall: seq<byte>, mySuffix: seq<byte>,
                       streamID: bv16): (pkt: seq<byte>)
    ensures |pkt| == HEADER_SIZE
  {
    Front(streamID) + WithCheck(LowFirst, Body(rpt2, rpt1, urCall, myCall, mySuffix))
  }

  method BuildDExtraVoiceHeader(rpt2: seq<byte>, rpt1: seq<byte>, urCall: seq<byte>, myCall: seq<byte>,
                                mySuffix: seq<byte>, streamID: bv16) returns (header: seq<byte>)
    ensures header == VoiceHeader(rpt2, rpt1, urCall, myCall, mySuffix, streamID)
  {
    hide High, Low, Padded, Sequence, Front, Body;
    var pkt := new byte[HEADER_SIZE](_ => 0);
    PutFront(pkt, streamID);
    var s2 := PadCallsign(rpt2, 8);
    var s1 := PadCallsign(rpt1, 8);
    var ur := PadCallsign(urCall, 8);
    var my := PadCallsign(myCall, 8);
    var sx := PadCallsign(mySuffix, 4);
    PutFields(pkt, s2, s1, ur, my, sx);
    ghost var body := Body(rpt2, rpt1, urCall, myCall, mySuffix);
    assert pkt[..54] == Front(streamID) + body by { BodyIs(rpt2, rpt1, urCall, myCall, mySuffix, Front(streamID)); }
    var crc := DstarCRC(pkt[15..54]);
    assert pkt[15..54] == body;
    pkt[54] := Low(crc);
    pkt[55] := High(crc);
    header := pkt[..];
    assert header == Front(streamID) + (body + [Low(crc), High(crc)]);
  }

  lemma BodyIs(rpt2: seq<byte>, rpt1: seq<byte>, urCall: seq<byte>, myCall: seq<byte>, mySuffix: seq<byte>,
               front: seq<byte>)
    ensures front + Body(rpt2, rpt1, urCall, myCall, mySuffix)
            == front + [0, 0, 0] + Padded(rpt2, 8) + Padded(rpt1, 8) + Padded(urCall, 8) + Padded(myCall, 8)
               + Padded(mySuffix, 4)
  {
    hide Padded;
  }

  method PutFront(pkt: array<byte>, streamID: bv16)
    requires pkt.Length == HEADER_SIZE && forall k :: 0 <= k < HEADER_SIZE ==> pkt[k] == 0
    modifies pkt
    ensures pkt[..18] == Front(streamID) + [0, 0, 0]
  {
    hide High, Low;
    CopyInto(pkt, 0, PREAMBLE);
    assert forall k :: 12 <= k < HEADER_SIZE ==> pkt[k] == 0;
    pkt[12] := High(streamID);
    pkt[13] := Low(streamID);
    pkt[14] := 0x80;
    assert pkt[15..18] == [0, 0, 0];
  }

  /** The five callsign fields, behind each other. */
  method PutFields(pkt: array<byte>, s2: seq<byte>, s1: seq<byte>, ur: seq<byte>, my: seq<byte>, sx: seq<byte>)
    requires pkt.Length == HEADER_SIZE && |s2| == |s1| == |ur| == |my| == 8 && |sx| == 4
    modifies pkt
    ensures pkt[..54] == old(pkt[..18]) + s2 + s1 + ur + my + sx
  {
    ghost var front := pkt[..18];
    CopyInto(pkt, 18, s2);
    assert pkt[..26] == front + s2;
    CopyInto(pkt, 26, s1);
    assert pkt[..34] == front + s2 + s1;
    CopyInto(pkt, 34, ur);
    assert pkt[..42] == front + s2 + s1 + ur;
    CopyInto(pkt, 42, my);
    assert pkt[..50] == front + s2 + s1 + ur + my;
    CopyInto(pkt, 50, sx);
  }

  /** Every header that is built carries its check sequence, and after any change within two neighbouring bytes of the
      41, be it in the callsigns or in the check sequence, what a receiver gets no longer does. */
  lemma HeaderDamageIsNoticed(rpt2: seq<byte>, rpt1: seq<byte>, urCall: seq<byte>, myCall: seq<byte>,
                              mySuffix: seq<byte>, streamID: bv16, damaged: seq<byte>, i: nat)
    requires 15 <= i && Burst(VoiceHeader(rpt2, rpt1, urCall, myCall, mySuffix, streamID), damaged, i)
    ensures Checks(LowFirst, damaged[15..]) <==> damaged == VoiceHeader(rpt2, rpt1, urCall, myCall, mySuffix, streamID)
  {
    hide Checks, WithCheck, Body, Front;
    var pkt := VoiceHeader(rpt2, rpt1, urCall, myCall, mySuffix, streamID);
    assert pkt[15..] == WithCheck(LowFirst, Body(rpt2, rpt1, urCall, myCall, mySuffix));
    WithCheckChecks(LowFirst, Body(rpt2, rpt1, urCall, myCall, mySuffix));
    assert pkt[..15] == damaged[..15];
    assert pkt == pkt[..15] + pkt[15..] && damaged == damaged[..15] + damaged[15..];
    DetectsBurst(LowFirst, pkt[15..], damaged[15..], i - 15);
  }

  // ----- the bytes of a header --------------------------------------------------------------

  /** Character k of a callsign field. */
  function CharAt(callsign: seq<byte>, k: nat): byte {
    if k < |callsign| then callsign[k] else 32
  }

  lemma FieldAt(pkt: seq<byte>, at: nat, callsign: seq<byte>, n: nat)
    requires at + n <= |pkt| && pkt[at..at + n] == Padded(callsign, n)
    ensures forall k :: 0 <= k < n ==> pkt[at + k] == CharAt(callsign, k)
  {
    forall k | 0 <= k < n
      ensures pkt[at + k] == CharAt(callsign, k)
    {
      assert pkt[at + k] == pkt[at..at + n][k];
    }
  }

  lemma StreamBytes(streamID: bv16)
    ensures 256 * (High(streamID) as bv16) + (Low(streamID) as bv16) == streamID
  {
  }

  /** A header begins with DSVT; its stream id stands in bytes 12 and 13, the second repeater, the first, the called and
      the calling station from bytes 18, 26, 34 and 42 on, the suffix in bytes 50 to 53, and the check sequence of bytes
      15 to 53 behind it, its lower byte first. */
  lemma HeaderLayout(rpt2: seq<byte>, rpt1: seq<byte>, urCall: seq<byte>, myCall: seq<byte>, mySuffix: seq<byte>,
                     streamID: bv16)
    ensures var p := VoiceHeader(rpt2, rpt1, urCall, myCall, mySuffix, streamID);
            && |p| == 56 && p[..12] == [0x44, 0x53, 0x56, 0x54, 0x10, 0, 0, 0, 0x20, 0, 0x01, 0x02]
            && 256 * (p[12] as bv16) + (p[13] as bv16) == streamID
            && p[14..18] == [0x80, 0, 0, 0]
            && (forall k :: 0 <= k < 8 ==> p[18 + k] == CharAt(rpt2, k))
            && (forall k :: 0 <= k < 8 ==> p[26 + k] == CharAt(rpt1, k))
            && (forall k :: 0 <= k < 8 ==> p[34 + k] == CharAt(urCall, k))
            && (forall k :: 0 <= k < 8 ==> p[42 + k] == CharAt(myCall, k))
            && (forall k :: 0 <= k < 4 ==> p[50 + k] == CharAt(mySuffix, k))
            && 256 * (p[55] as bv16) + (p[54] as bv16) == DstarCrc(p[15..54])
  {
    hide High, Low, Sequence, Padded, CharAt;
    var p := VoiceHeader(rpt2, rpt1, urCall, myCall, mySuffix, streamID);
    var body := Body(rpt2, rpt1, urCall, myCall, mySuffix);
    assert p[15..54] == body && p[..15] == Front(streamID);
    FrontLayout(p, streamID, body);
    FieldsInBody(rpt2, rpt1, urCall, myCall, mySuffix);
    StreamBytes(DstarCrc(body));
    hide VoiceHeader, Front, Body, DstarCrc;
    FieldIn(p, body, 3, rpt2, 8);
    FieldIn(p, body, 11, rpt1, 8);
    FieldIn(p, body, 19, urCall, 8);
    FieldIn(p, body, 27, myCall, 8);
    FieldIn(p, body, 35, mySuffix, 4);
  }

  lemma FrontLayout(p: seq<byte>, streamID: bv16, body: seq<byte>)
    requires |p| == 56 && |body| == 39 && p[..15] == Front(streamID) && p[15..54] == body && body[..3] == [0, 0, 0]
    ensures p[..12] == [0x44, 0x53, 0x56, 0x54, 0x10, 0, 0, 0, 0x20, 0, 0x01, 0x02]
    ensures 256 * (p[12] as bv16) + (p[13] as bv16) == streamID && p[14..18] == [0x80, 0, 0, 0]
  {
    hide High, Low;
    StreamBytes(streamID);
    assert p[12] == p[..15][12] && p[13] == p[..15][13] && p[..12] == p[..15][..12];
    assert body[0] == body[..3][0] && body[1] == body[..3][1] && body[2] == body[..3][2];
    assert p[14..18] == [p[..15][14], p[15..54][0], p[15..54][1], p[15..54][2]];
  }

  lemma FieldIn(p: seq<byte>, body: seq<byte>, at: nat, callsign: seq<byte>, n: nat)
    requires |p| == 56 && |body| == 39 && p[15..54] == body && at + n <= 39 && body[at..at + n] == Padded(callsign, n)
    ensures forall k :: 0 <= k < n ==> p[15 + at + k] == CharAt(callsign, k)
  {
    hide Padded, CharAt;
    PartOf(p, body, at, n);
    FieldAt(p, 15 + at, callsign, n);
  }

  lemma PartOf(p: seq<byte>, body: seq<byte>, at: nat, n: nat)
    requires |p| == 56 && |body| == 39 && p[15..54] == body && at + n <= 39
    ensures p[15 + at..15 + at + n] == body[at..at + n]
  {
    var a, b := p[15 + at..15 + at + n], body[at..at + n];
    forall k | 0 <= k < n
      ensures a[k] == b[k]
    {
      assert p[15 + (at + k)] == body[at + k];
    }
  }

  lemma FieldsInBody(rpt2: seq<byte>, rpt1: seq<byte>, urCall: seq<byte>, myCall: seq<byte>, mySuffix: seq<byte>)
    ensures var b := Body(rpt2, rpt1, urCall, myCall, mySuffix);
            && b[..3] == [0, 0, 0] && b[3..11] == Padded(rpt2, 8) && b[11..19] == Padded(rpt1, 8)
            && b[19..27] == Padded(urCall, 8) && b[27..35] == Padded(myCall, 8) && b[35..39] == Padded(mySuffix, 4)
  {
    hide Padded;
  }
}
