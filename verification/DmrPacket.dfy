/** The 53-byte DMRD packet of the MMDVM Homebrew protocol (dmr_bridge/dmr_protocol.go:166-374). */
module DmrPacket {
  import opened Bits
  import opened Buffers
  import opened DmrBurst

  const DMRD_SIZE := 53
  const SIGNATURE: seq<byte> := [0x44, 0x4D, 0x52, 0x44]  // "DMRD"

  const VOICE: byte := 0
  const VOICE_SYNC_TYPE: byte := 1
  const DATA_SYNC: byte := 2
  const HEADER_TYPE: byte := 1
  const TERMINATOR_TYPE: byte := 2
  const GROUP_CALL: byte := 0
  const PRIVATE_CALL: byte := 1
  const DATA_SYNC_BS: seq<byte> := [0xD5, 0xD7, 0xF7, 0x7F, 0xD7, 0x57]

  type id32 = bv32

  datatype DmrdFrame = DmrdFrame(seqNo: byte, srcId: id32, dstId: id32, rptId: id32, slot: byte, callType: byte,
                                 frameType: byte, voiceSeq: byte, streamId: id32, payload: seq<byte>)
  {
    predicate IsVoice() { frameType == VOICE || frameType == VOICE_SYNC_TYPE }

    predicate IsTerminator() { frameType == DATA_SYNC && voiceSeq == TERMINATOR_TYPE }

    predicate IsHeader() { frameType == DATA_SYNC && voiceSeq == HEADER_TYPE }
  }

  datatype ParseResult = NotDmrd | Parsed(frame: DmrdFrame)

  // ----- numbers as bytes, most significant first -------------------------------------------

  function Byte3(x: id32): byte { ((x >> 24) & 0xFF) as byte }
  function Byte2(x: id32): byte { ((x >> 16) & 0xFF) as byte }
  function Byte1(x: id32): byte { ((x >> 8) & 0xFF) as byte }
  function Byte0(x: id32): byte { (x & 0xFF) as byte }

  function Word(b3: byte, b2: byte, b1: byte, b0: byte): id32 {
    ((b3 as id32) << 24) | ((b2 as id32) << 16) | ((b1 as id32) << 8) | (b0 as id32)
  }

  function Bytes4(x: id32): (b: seq<byte>)
    ensures |b| == 4
  {
    [Byte3(x), Byte2(x), Byte1(x), Byte0(x)]
  }

  function Bytes3(x: id32): (b: seq<byte>)
    ensures |b| == 3
  {
    [Byte2(x), Byte1(x), Byte0(x)]
  }

  function Low24(x: id32): id32 { x & 0x00FF_FFFF }

  lemma WordOfBytes(x: id32)
    ensures Word(Byte3(x), Byte2(x), Byte1(x), Byte0(x)) == x
    ensures Word(0, Byte2(x), Byte1(x), Byte0(x)) == Low24(x)
  {
  }

  lemma BytesOfWord(b3: byte, b2: byte, b1: byte, b0: byte)
    ensures var x := Word(b3, b2, b1, b0); Byte3(x) == b3 && Byte2(x) == b2 && Byte1(x) == b1 && Byte0(x) == b0
  {
  }

  function Flags(slot: byte, callType: byte, frameType: byte, voiceSeq: byte): byte {
    ((slot & 0x01) << 7) | ((callType & 0x01) << 6) | ((frameType & 0x03) << 4) | (voiceSeq & 0x0F)
  }

  function SlotOf(flags: byte): byte { (flags >> 7) & 0x01 }
  function CallTypeOf(flags: byte): byte { (flags >> 6) & 0x01 }
  function FrameTypeOf(flags: byte): byte { (flags >> 4) & 0x03 }
  function VoiceSeqOf(flags: byte): byte { flags & 0x0F }

  lemma FlagsComeBack(slot: byte, callType: byte, frameType: byte, voiceSeq: byte)
    ensures var f := Flags(slot, callType, frameType, voiceSeq);
            && SlotOf(f) == slot & 0x01 && CallTypeOf(f) == callType & 0x01
            && FrameTypeOf(f) == frameType & 0x03 && VoiceSeqOf(f) == voiceSeq & 0x0F
  {
  }

  lemma FlagsOfFields(f: byte)
    ensures Flags(SlotOf(f), CallTypeOf(f), FrameTypeOf(f), VoiceSeqOf(f)) == f
  {
  }

  // ----- packets ----------------------------------------------------------------------------

  function Packet(f: DmrdFrame): (pkt: seq<byte>)
    requires |f.payload| == BURST_BYTES
    ensures |pkt| == DMRD_SIZE
  {
    SIGNATURE + [f.seqNo] + Bytes3(f.srcId) + Bytes3(f.dstId) + Bytes4(f.rptId) +
    [Flags(f.slot, f.callType, f.frameType, f.voiceSeq)] + Bytes4(f.streamId) + f.payload
  }

  function Parse(data: seq<byte>): (r: ParseResult)
    ensures r.Parsed? ==> |r.frame.payload| == BURST_BYTES
  {
    if |data| < DMRD_SIZE || data[..4] != SIGNATURE then NotDmrd
    else
      Parsed(DmrdFrame(data[4], Word(0, data[5], data[6], data[7]), Word(0, data[8], data[9], data[10]),
                       Word(data[11], data[12], data[13], data[14]),
                       SlotOf(data[15]), CallTypeOf(data[15]), FrameTypeOf(data[15]), VoiceSeqOf(data[15]),
                       Word(data[16], data[17], data[18], data[19]), data[20..53]))
  }

  // ----- the layout in numbers ----------------------------------------------------------------

  function Sum24(b2: byte, b1: byte, b0: byte): bv32 {
    65536 * (b2 as bv32) + 256 * (b1 as bv32) + (b0 as bv32)
  }

  function Sum32(b3: byte, b2: byte, b1: byte, b0: byte): bv32 {
    16777216 * (b3 as bv32) + 65536 * (b2 as bv32) + 256 * (b1 as bv32) + (b0 as bv32)
  }

  /** The number in the three bytes from at on. */
  function Number24(data: seq<byte>, at: nat): bv32
    requires at + 3 <= |data|
  {
    Sum24(data[at], data[at + 1], data[at + 2])
  }

  /** The number in the four bytes from at on. */
  function Number32(data: seq<byte>, at: nat): bv32
    requires at + 4 <= |data|
  {
    Sum32(data[at], data[at + 1], data[at + 2], data[at + 3])
  }

  function Mod24(x: bv32): bv32 { x % 16777216 }

  function Digits(slot: byte, callType: byte, frameType: byte, voiceSeq: byte): byte {
    128 * (slot % 2) + 64 * (callType % 2) + 16 * (frameType % 4) + voiceSeq % 16
  }

  /** Where the fields of a frame are and how wide, in plain arithmetic on the bytes. */
  ghost predicate LaidOut(data: seq<byte>, f: DmrdFrame)
    requires |data| >= DMRD_SIZE
  {
    && data[0] == 68 && data[1] == 77 && data[2] == 82 && data[3] == 68
    && data[4] == f.seqNo
    && Number24(data, 5) == Mod24(f.srcId)
    && Number24(data, 8) == Mod24(f.dstId)
    && Number32(data, 11) == f.rptId
    && data[15] == Digits(f.slot, f.callType, f.frameType, f.voiceSeq)
    && Number32(data, 16) == f.streamId
    && data[20..53] == f.payload
  }

  predicate Narrow24(x: bv32) { x < 16777216 }

  /** No field of the frame is wider than its place in the packet. */
  ghost predicate Narrow(f: DmrdFrame) {
    && Narrow24(f.srcId) && Narrow24(f.dstId)
    && f.slot < 2 && f.callType < 2 && f.frameType < 4 && f.voiceSeq < 16
  }

  lemma SumIsWord(b3: byte, b2: byte, b1: byte, b0: byte)
    ensures Sum32(b3, b2, b1, b0) == Word(b3, b2, b1, b0)
  {
  }

  lemma SumIsWord24(b2: byte, b1: byte, b0: byte)
    ensures Sum24(b2, b1, b0) == Word(0, b2, b1, b0)
  {
  }

  lemma WordIsNarrow(b2: byte, b1: byte, b0: byte)
    ensures Mod24(Word(0, b2, b1, b0)) == Word(0, b2, b1, b0) && Narrow24(Word(0, b2, b1, b0))
  {
  }

  lemma Low24IsRemainder(x: id32)
    ensures Low24(x) == Mod24(x)
  {
  }

  lemma FlagsAreDigits(slot: byte, callType: byte, frameType: byte, voiceSeq: byte)
    ensures Flags(slot, callType, frameType, voiceSeq) == Digits(slot, callType, frameType, voiceSeq)
  {
  }

  lemma DigitsOfFlags(f: byte)
    ensures f == Digits(SlotOf(f), CallTypeOf(f), FrameTypeOf(f), VoiceSeqOf(f))
    ensures SlotOf(f) < 2 && CallTypeOf(f) < 2 && FrameTypeOf(f) < 4 && VoiceSeqOf(f) < 16
  {
  }

  lemma Number24Of(data: seq<byte>, at: nat, x: id32)
    requires at + 3 <= |data| && data[at..at + 3] == Bytes3(x)
    ensures Number24(data, at) == Mod24(x)
  {
    assert data[at] == data[at..at + 3][0] && data[at + 1] == data[at..at + 3][1];
    assert data[at + 2] == data[at..at + 3][2];
    hide Word, Sum24, Low24, Mod24, Byte2, Byte1, Byte0;
    SumIsWord24(data[at], data[at + 1], data[at + 2]);
    WordOfBytes(x);
    Low24IsRemainder(x);
  }

  lemma Number32Of(data: seq<byte>, at: nat, x: id32)
    requires at + 4 <= |data| && data[at..at + 4] == Bytes4(x)
    ensures Number32(data, at) == x
  {
    assert data[at] == data[at..at + 4][0] && data[at + 1] == data[at..at + 4][1];
    assert data[at + 2] == data[at..at + 4][2] && data[at + 3] == data[at..at + 4][3];
    hide Word, Sum32, Byte3, Byte2, Byte1, Byte0;
    SumIsWord(data[at], data[at + 1], data[at + 2], data[at + 3]);
    WordOfBytes(x);
  }

  /** Every packet that is built has the layout. */
  lemma PacketIsLaidOut(f: DmrdFrame)
    requires |f.payload| == BURST_BYTES
    ensures LaidOut(Packet(f), f)
  {
    hide Bytes3, Bytes4, Number24, Number32, Mod24, Flags, Digits;
    var p := Packet(f);
    assert p[..4] == SIGNATURE && p[0] == p[..4][0] && p[1] == p[..4][1] && p[2] == p[..4][2] && p[3] == p[..4][3];
    assert p[5..8] == Bytes3(f.srcId) && p[8..11] == Bytes3(f.dstId) && p[11..15] == Bytes4(f.rptId);
    assert p[16..20] == Bytes4(f.streamId) && p[20..53] == f.payload;
    Number24Of(p, 5, f.srcId);
    Number24Of(p, 8, f.dstId);
    Number32Of(p, 11, f.rptId);
    Number32Of(p, 16, f.streamId);
    FlagsAreDigits(f.slot, f.callType, f.frameType, f.voiceSeq);
  }

  lemma WordAt(data: seq<byte>, at: nat)
    requires at + 4 <= |data|
    ensures Word(data[at], data[at + 1], data[at + 2], data[at + 3]) == Number32(data, at)
  {
    hide Word, Sum32;
    SumIsWord(data[at], data[at + 1], data[at + 2], data[at + 3]);
  }

  lemma Word24At(data: seq<byte>, at: nat)
    requires at + 3 <= |data|
    ensures var x := Word(0, data[at], data[at + 1], data[at + 2]); x == Number24(data, at) == Mod24(x) && Narrow24(x)
  {
    hide Word, Sum24, Mod24, Narrow24;
    SumIsWord24(data[at], data[at + 1], data[at + 2]);
    WordIsNarrow(data[at], data[at + 1], data[at + 2]);
  }

  /** Exactly the datagrams that are long enough and begin with DMRD parse, and their fields are read by the layout. */
  lemma ParsesByLayout(data: seq<byte>)
    ensures (Parse(data).Parsed? <==>
             |data| >= 53 && data[0] == 68 && data[1] == 77 && data[2] == 82 && data[3] == 68)
    ensures Parse(data).Parsed? ==> LaidOut(data, Parse(data).frame) && Narrow(Parse(data).frame)
  {
    hide Word, Number24, Number32, Mod24, Narrow24, Digits, SlotOf, CallTypeOf, FrameTypeOf, VoiceSeqOf;
    if |data| >= DMRD_SIZE {
      assert data[..4] == [data[0], data[1], data[2], data[3]];
      Word24At(data, 5);
      Word24At(data, 8);
      WordAt(data, 11);
      WordAt(data, 16);
      DigitsOfFlags(data[15]);
    }
  }

  /** A layout has room for one frame only. */
  lemma LayoutDecides(data: seq<byte>, f: DmrdFrame, g: DmrdFrame)
    requires |data| >= DMRD_SIZE && LaidOut(data, f) && LaidOut(data, g) && Narrow(f) && Narrow(g)
    ensures f == g
  {
    hide Number24, Number32, Mod24, Narrow24, Digits;
    SmallNumber(f.srcId);
    SmallNumber(g.srcId);
    SmallNumber(f.dstId);
    SmallNumber(g.dstId);
    DigitsDecide(f.slot, f.callType, f.frameType, f.voiceSeq, g.slot, g.callType, g.frameType, g.voiceSeq);
  }

  lemma SmallNumber(x: id32)
    requires Narrow24(x)
    ensures Mod24(x) == x
  {
  }

  lemma DigitsDecide(a: byte, b: byte, c: byte, d: byte, e: byte, f: byte, g: byte, h: byte)
    requires a < 2 && b < 2 && c < 4 && d < 16 && e < 2 && f < 2 && g < 4 && h < 16
    requires Digits(a, b, c, d) == Digits(e, f, g, h)
    ensures a == e && b == f && c == g && d == h
  {
  }

  /** What is left of a frame on the air: 24-bit ids, one-bit slot and call type, and so on. */
  function Narrowed(f: DmrdFrame): DmrdFrame {
    f.(srcId := Low24(f.srcId), dstId := Low24(f.dstId), slot := f.slot & 0x01, callType := f.callType & 0x01,
       frameType := f.frameType & 0x03, voiceSeq := f.voiceSeq & 0x0F)
  }

  /** Every packet parses to the frame it was built from, cut to the widths of its fields. */
  lemma PacketRoundTrip(f: DmrdFrame)
    requires |f.payload| == BURST_BYTES
    ensures Parse(Packet(f)) == Parsed(Narrowed(f))
  {
    hide Byte3, Byte2, Byte1, Byte0, Word, Low24, Flags, SlotOf, CallTypeOf, FrameTypeOf, VoiceSeqOf;
    WordOfBytes(f.srcId);
    WordOfBytes(f.dstId);
    WordOfBytes(f.rptId);
    WordOfBytes(f.streamId);
    FlagsComeBack(f.slot, f.callType, f.frameType, f.voiceSeq);
    assert Packet(f)[..4] == SIGNATURE && Packet(f)[20..53] == f.payload;
  }

  /** And every packet that parses is the one that its fields build: nothing on the air is ignored. */
  lemma ParseRoundTrip(data: seq<byte>)
    requires Parse(data).Parsed?
    ensures |data| >= DMRD_SIZE && Packet(Parse(data).frame) == data[..DMRD_SIZE]
  {
    hide Bytes4, Bytes3, Word, Flags, SlotOf, CallTypeOf, FrameTypeOf, VoiceSeqOf;
    ThreeBytes(data, 5);
    ThreeBytes(data, 8);
    FourBytes(data, 11);
    FourBytes(data, 16);
    FlagsOfFields(data[15]);
    assert data[..DMRD_SIZE] == data[..4] + [data[4]] + data[5..8] + data[8..11] + data[11..15] + [data[15]]
                                  + data[16..20]
                                + data[20..53];
  }

  lemma ThreeBytes(data: seq<byte>, at: nat)
    requires at + 3 <= |data|
    ensures Bytes3(Word(0, data[at], data[at + 1], data[at + 2])) == data[at..at + 3]
  {
    hide Word, Byte3, Byte2, Byte1, Byte0;
    BytesOfWord(0, data[at], data[at + 1], data[at + 2]);
  }

  lemma FourBytes(data: seq<byte>, at: nat)
    requires at + 4 <= |data|
    ensures Bytes4(Word(data[at], data[at + 1], data[at + 2], data[at + 3])) == data[at..at + 4]
  {
    hide Word, Byte3, Byte2, Byte1, Byte0;
    BytesOfWord(data[at], data[at + 1], data[at + 2], data[at + 3]);
  }

  // ----- the code ---------------------------------------------------------------------------

  /** Writes four bytes behind done, which the buffer already holds. */
  method PutUint32(pkt: array<byte>, ghost done: seq<byte>, at: nat, x: id32)
    requires at + 4 <= pkt.Length && |done| == at && pkt[..at] == done
    modifies pkt
    ensures pkt[..at + 4] == done + Bytes4(x)
  {
    hide Byte3, Byte2, Byte1, Byte0;
    pkt[at], pkt[at + 1], pkt[at + 2], pkt[at + 3] := Byte3(x), Byte2(x), Byte1(x), Byte0(x);
  }

  method PutUint24(pkt: array<byte>, ghost done: seq<byte>, at: nat, x: id32)
    requires at + 3 <= pkt.Length && |done| == at && pkt[..at] == done
    modifies pkt
    ensures pkt[..at + 3] == done + Bytes3(x)
  {
    hide Byte3, Byte2, Byte1, Byte0;
    pkt[at] := Byte2(x);
    pkt[at + 1] := Byte1(x);
    pkt[at + 2] := Byte0(x);
  }

  method PutByte(pkt: array<byte>, ghost done: seq<byte>, at: nat, b: byte)
    requires at < pkt.Length && |done| == at && pkt[..at] == done
    modifies pkt
    ensures pkt[..at + 1] == done + [b]
  {
    pkt[at] := b;
  }

  method BuildDMRDFrame(seqNo: byte, srcID: id32, dstID: id32, rptID: id32, slot: byte, callType: byte,
                        frameType: byte, voiceSeq: byte, streamID: id32, payload: seq<byte>) returns (frame: seq<byte>)
    requires |payload| == BURST_BYTES
    ensures frame == Packet(DmrdFrame(seqNo, srcID, dstID, rptID, slot, callType, frameType, voiceSeq, streamID,
                                      payload))
    ensures LaidOut(frame, DmrdFrame(seqNo, srcID, dstID, rptID, slot, callType, frameType, voiceSeq, streamID,
                                     payload))
  {
    hide Bytes4, Bytes3, Flags, LaidOut;
    PacketIsLaidOut(DmrdFrame(seqNo, srcID, dstID, rptID, slot, callType, frameType, voiceSeq, streamID, payload));
    var buf := new byte[DMRD_SIZE](_ => 0);
    CopyInto(buf, 0, SIGNATURE);
    assert buf[..4] == SIGNATURE;
    PutByte(buf, SIGNATURE, 4, seqNo);
    PutUint24(buf, SIGNATURE + [seqNo], 5, srcID);
    PutUint24(buf, SIGNATURE + [seqNo] + Bytes3(srcID), 8, dstID);
    ghost var ids := SIGNATURE + [seqNo] + Bytes3(srcID) + Bytes3(dstID);
    PutUint32(buf, ids, 11, rptID);
    PutByte(buf, ids + Bytes4(rptID), 15, Flags(slot, callType, frameType, voiceSeq));
    PutUint32(buf, ids + Bytes4(rptID) + [Flags(slot, callType, frameType, voiceSeq)], 16, streamID);
    CopyInto(buf, 20, payload);
    frame := buf[..];
  }

  method ParseDMRDFrame(data: seq<byte>) returns (r: ParseResult)
    ensures r == Parse(data)
    ensures r.Parsed? ==> LaidOut(data, r.frame) && Narrow(r.frame)
  {
    hide LaidOut, Narrow;
    ParsesByLayout(data);
    hide Word, SlotOf, CallTypeOf, FrameTypeOf, VoiceSeqOf;
    if |data| < DMRD_SIZE {
      return NotDmrd;
    }
    if data[..4] != SIGNATURE {
      return NotDmrd;
    }
    var f := DmrdFrame(data[4], Word(0, data[5], data[6], data[7]), Word(0, data[8], data[9], data[10]),
                       Word(data[11], data[12], data[13], data[14]), 0, 0, 0, 0, 0, []);
    var flags := data[15];
    f := f.(slot := SlotOf(flags), callType := CallTypeOf(flags), frameType := FrameTypeOf(flags),
            voiceSeq := VoiceSeqOf(flags));
    f := f.(streamId := Word(data[16], data[17], data[18], data[19]), payload := data[20..53]);
    r := Parsed(f);
  }

  // ----- link control -----------------------------------------------------------------------

  function LinkInfo(srcID: id32, dstID: id32, callType: byte): (info: seq<byte>)
    ensures |info| == 9
  {
    [if callType == PRIVATE_CALL then 0x03 else 0, 0, 0] + Bytes3(dstID) + Bytes3(srcID)
  }

  /** The payload of headers and terminators: nine bytes of link control and the data sync in the middle. */
  function LinkControl(srcID: id32, dstID: id32, callType: byte): (payload: seq<byte>)
    ensures |payload| == BURST_BYTES
  {
    LinkInfo(srcID, dstID, callType) + [0, 0, 0, 0] + DATA_SYNC_BS + [0, 0, 0, 0, 0, 0, 0, 0, 0, 0, 0, 0, 0, 0]
  }

  /** Where link control keeps the call type and the two ids, and the data sync behind them. */
  ghost predicate LinkLaidOut(payload: seq<byte>, srcID: id32, dstID: id32, callType: byte)
    requires |payload| == BURST_BYTES
  {
    && payload[0] == (if callType == 1 then 3 else 0) && payload[1] == 0 && payload[2] == 0
    && Number24(payload, 3) == Mod24(dstID)
    && Number24(payload, 6) == Mod24(srcID)
    && (forall i :: 9 <= i < 13 || 19 <= i < 33 ==> payload[i] == 0)
    && payload[13..19] == [0xD5, 0xD7, 0xF7, 0x7F, 0xD7, 0x57]
  }

  lemma LinkControlIsLaidOut(srcID: id32, dstID: id32, callType: byte)
    ensures LinkLaidOut(LinkControl(srcID, dstID, callType), srcID, dstID, callType)
  {
    hide Bytes3, Number24, Mod24;
    var p := LinkControl(srcID, dstID, callType);
    assert p[3..6] == Bytes3(dstID) && p[6..9] == Bytes3(srcID);
    Number24Of(p, 3, dstID);
    Number24Of(p, 6, srcID);
  }

  method BuildLinkControl(srcID: id32, dstID: id32, callType: byte) returns (payload: seq<byte>)
    ensures payload == LinkControl(srcID, dstID, callType)
  {
    hide LinkInfo;
    var lc := FullLC(srcID, dstID, callType);
    var buf := new byte[BURST_BYTES](_ => 0);
    CopyInto(buf, 0, lc);
    assert buf[..13] == lc + [0, 0, 0, 0];
    assert buf[19..] == [0, 0, 0, 0, 0, 0, 0, 0, 0, 0, 0, 0, 0, 0];
    CopyInto(buf, 13, DATA_SYNC_BS);
    payload := buf[..];
  }

  method FullLC(srcID: id32, dstID: id32, callType: byte) returns (info: seq<byte>)
    ensures info == LinkInfo(srcID, dstID, callType)
  {
    hide Byte2, Byte1, Byte0;
    var lc := new byte[12](_ => 0);
    if callType == PRIVATE_CALL {
      lc[0] := 0x03;
    }
    lc[3] := Byte2(dstID);
    lc[4] := Byte1(dstID);
    lc[5] := Byte0(dstID);
    lc[6] := Byte2(srcID);
    lc[7] := Byte1(srcID);
    lc[8] := Byte0(srcID);
    info := lc[..9];
  }

  function HeaderPacket(seqNo: byte, srcID: id32, dstID: id32, rptID: id32, streamID: id32, slot: byte,
                        callType: byte): seq<byte>
  {
    Packet(DmrdFrame(seqNo, srcID, dstID, rptID, slot, callType, DATA_SYNC, HEADER_TYPE, streamID,
                     LinkControl(srcID, dstID, callType)))
  }

  function TerminatorPacket(seqNo: byte, srcID: id32, dstID: id32, rptID: id32, streamID: id32, slot: byte,
                            callType: byte): seq<byte>
  {
    Packet(DmrdFrame(seqNo, srcID, dstID, rptID, slot, callType, DATA_SYNC, TERMINATOR_TYPE, streamID,
                     LinkControl(srcID, dstID, callType)))
  }

  method BuildVoiceLCHeader(seqNo: byte, srcID: id32, dstID: id32, rptID: id32, streamID: id32, slot: byte,
                            callType: byte) returns (pkt: seq<byte>)
    ensures pkt == HeaderPacket(seqNo, srcID, dstID, rptID, streamID, slot, callType)
  {
    hide Packet, LinkControl;
    var payload := BuildLinkControl(srcID, dstID, callType);
    pkt := BuildDMRDFrame(seqNo, srcID, dstID, rptID, slot, callType, DATA_SYNC, HEADER_TYPE, streamID, payload);
  }

  method BuildVoiceTerminator(seqNo: byte, srcID: id32, dstID: id32, rptID: id32, streamID: id32, slot: byte,
                              callType: byte) returns (pkt: seq<byte>)
    ensures pkt == TerminatorPacket(seqNo, srcID, dstID, rptID, streamID, slot, callType)
  {
    hide Packet, LinkControl;
    var payload := BuildLinkControl(srcID, dstID, callType);
    pkt := BuildDMRDFrame(seqNo, srcID, dstID, rptID, slot, callType, DATA_SYNC, TERMINATOR_TYPE, streamID, payload);
  }
}
