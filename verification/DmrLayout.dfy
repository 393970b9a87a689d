/** What the DMR packets look like bit by bit: where the bits of the voice frames lie in a burst, and what every packet
    of an over says in numbers (dmr_bridge/dmr_protocol.go:58-374, dmr_bridge/dmr_client.go:273-364). */
module DmrLayout {
  import opened Bits
  import opened DmrBurst
  import opened DmrPacket
  import opened DmrClient
  import opened DmrLink

  // ----- bursts -----------------------------------------------------------------------------

  /** Bit b of frame f is bit 3 b + f of the voice, which leaves out the 48 bits from 108 on. */
  ghost predicate InPlace(burst: seq<byte>, frames: Triple, f: nat, b: nat)
    requires |burst| == 33 && f < 3 && b < 72
  {
    var i := 3 * b + f;
    ReadBit(burst, if i < 108 then i else i + 48) == ReadBit(frames[f], b)
  }

  /** Burst A has the voice sync in its middle, the others nothing. */
  ghost predicate SyncInPlace(burst: seq<byte>, number: nat, q: nat)
    requires |burst| == 33 && q < 48
  {
    ReadBit(burst, 108 + q) == (number == 0 && ReadBit([0x07, 0x55, 0xFD, 0x7D, 0xF7, 0x5F], q))
  }

  lemma FrameBitInBurst(frames: Triple, sync: Sync, f: nat, b: nat)
    requires f < 3 && b < 72
    ensures InPlace(Burst(frames, sync), frames, f, b)
  {
    hide TestBit, Pack;
    var i := 3 * b + f;
    assert i % 3 == f && i / 3 == b;
    UnpackPack(BurstBits(frames, sync));
    assert Unpack(Burst(frames, sync))[Place(i)] == BurstBits(frames, sync)[Place(i)];
  }

  lemma SyncInBurst(frames: Triple, burst: nat, q: nat)
    requires q < 48
    ensures SyncInPlace(Burst(frames, SyncFor(burst)), burst, q)
  {
    hide TestBit, Pack;
    var sync := SyncFor(burst);
    UnpackPack(BurstBits(frames, sync));
    assert Unpack(Burst(frames, sync))[108 + q] == BurstBits(frames, sync)[108 + q] == ReadBit(sync, q);
    if burst != 0 {
      ZeroBits(sync);
      assert !Unpack(sync)[q];
    }
  }

  /** And a received burst is taken apart by the same places. */
  lemma FrameBitOutOfBurst(burst: seq<byte>, f: nat, b: nat)
    requires |burst| == 33 && f < 3 && b < 72
    ensures var i := 3 * b + f;
            ReadBit(Frames(burst)[f], b) == ReadBit(burst, if i < 108 then i else i + 48)
  {
    hide TestBit, Pack;
    UnpackPack(FrameBits(burst, f));
    assert Unpack(Frames(burst)[f])[b] == FrameBits(burst, f)[b];
  }

  // ----- an over ----------------------------------------------------------------------------

  /** What the packets of an over have in common. */
  ghost predicate FromSender(pkt: seq<byte>, tx: Sender)
    requires |pkt| == 53
  {
    && pkt[..4] == [68, 77, 82, 68]
    && Number24(pkt, 5) == Mod24(tx.rptID) && Number24(pkt, 8) == Mod24(tx.talkgroup) && Number32(pkt, 11) == tx.rptID
    && pkt[15] / 128 == tx.timeslot % 2 && Number32(pkt, 16) == tx.streamID
  }

  /** The burst carries three voice frames, bit by bit, and the sync field of its number. */
  ghost predicate CarriesVoice(burst: seq<byte>, frames: Triple, number: nat)
    requires |burst| == 33
  {
    && (forall f: nat, b: nat | f < 3 && b < 72 :: InPlace(burst, frames, f, b))
    && (forall q: nat | q < 48 :: SyncInPlace(burst, number, q))
  }

  lemma BurstCarriesVoice(frames: Triple, number: nat)
    ensures CarriesVoice(Burst(frames, SyncFor(number)), frames, number)
  {
    hide Burst, InPlace, SyncInPlace;
    forall f: nat, b: nat | f < 3 && b < 72
      ensures InPlace(Burst(frames, SyncFor(number)), frames, f, b)
    {
      FrameBitInBurst(frames, SyncFor(number), f, b);
    }
    forall q: nat | q < 48
      ensures SyncInPlace(Burst(frames, SyncFor(number)), number, q)
    {
      SyncInBurst(frames, number, q);
    }
  }

  /** The frames of an over, and the frame of silence behind them. */
  function FrameAt(frames: seq<Ambe>, i: nat): Ambe {
    if i < |frames| then frames[i] else [0xB9, 0xE8, 0x81, 0x48, 0, 0, 0, 0, 0]
  }

  /** What byte 15 says besides the slot: 33 for a header, 34 for a terminator, 16 for a burst with the voice sync, and
      the number of the burst for the others. */
  function Kind(k: nat, last: nat): nat {
    if k == 0 then 33 else if k == last then 34 else if (k - 1) % 6 == 0 then 16 else (k - 1) % 6
  }

  lemma KindOfDigits(slot: byte, frameType: byte, voiceSeq: byte)
    requires frameType < 4 && voiceSeq < 16
    ensures var d := Digits(slot, 0, frameType, voiceSeq);
            d / 128 == slot % 2 && d % 128 == 16 * frameType + voiceSeq
  {
  }

  lemma Numbers(slot: byte, burst: nat)
    requires burst < BURSTS
    ensures Num(Digits(slot, GROUP_CALL, DATA_SYNC, HEADER_TYPE) % 128) == 33
    ensures Num(Digits(slot, GROUP_CALL, DATA_SYNC, TERMINATOR_TYPE) % 128) == 34
    ensures (Num(Digits(slot, GROUP_CALL, FrameType(burst), BurstByte(burst)) % 128)
             == if burst == 0 then 16 else burst)
    ensures Digits(slot, GROUP_CALL, DATA_SYNC, HEADER_TYPE) / 128 == slot % 2
    ensures Digits(slot, GROUP_CALL, DATA_SYNC, TERMINATOR_TYPE) / 128 == slot % 2
    ensures Digits(slot, GROUP_CALL, FrameType(burst), BurstByte(burst)) / 128 == slot % 2
  {
    KindOfDigits(slot, DATA_SYNC, HEADER_TYPE);
    KindOfDigits(slot, DATA_SYNC, TERMINATOR_TYPE);
    KindOfDigits(slot, FrameType(burst), BurstByte(burst));
    hide Digits;
  }

  lemma Framed(tx: Sender, f: DmrdFrame)
    requires |f.payload| == BURST_BYTES && f.srcId == f.rptId == tx.rptID && f.dstId == tx.talkgroup
    requires f.streamId == tx.streamID
    requires Digits(f.slot, f.callType, f.frameType, f.voiceSeq) / 128 == tx.timeslot % 2
    ensures var p := Packet(f);
            && FromSender(p, tx) && p[4] == f.seqNo && p[20..] == f.payload
            && p[15] == Digits(f.slot, f.callType, f.frameType, f.voiceSeq)
  {
    hide Packet, Number24, Number32, Mod24, Digits;
    PacketIsLaidOut(f);
    var p := Packet(f);
    assert p[..4] == [p[0], p[1], p[2], p[3]] && p[20..] == p[20..53];
  }

  lemma HeaderOnTheAir(tx: Sender)
    ensures var p := HeaderOf(tx);
            && |p| == 53 && FromSender(p, tx) && p[4] == 0 && Num(p[15] % 128) == 33
            && LinkLaidOut(p[20..], tx.rptID, tx.talkgroup, 0)
  {
    hide FromSender, Packet, Num, Digits, LinkControl, LinkLaidOut;
    Numbers(tx.timeslot, 0);
    LinkControlIsLaidOut(tx.rptID, tx.talkgroup, GROUP_CALL);
    Framed(tx, DmrdFrame(0, tx.rptID, tx.talkgroup, tx.rptID, tx.timeslot, GROUP_CALL, DATA_SYNC, HEADER_TYPE,
                         tx.streamID, LinkControl(tx.rptID, tx.talkgroup, GROUP_CALL)));
  }

  lemma TerminatorOnTheAir(tx: Sender, seqNo: byte)
    ensures var p := TerminatorOf(tx, seqNo);
            && |p| == 53 && FromSender(p, tx) && p[4] == seqNo && Num(p[15] % 128) == 34
            && LinkLaidOut(p[20..], tx.rptID, tx.talkgroup, 0)
  {
    hide FromSender, Packet, Num, Digits, LinkControl, LinkLaidOut;
    Numbers(tx.timeslot, 0);
    LinkControlIsLaidOut(tx.rptID, tx.talkgroup, GROUP_CALL);
    Framed(tx, DmrdFrame(seqNo, tx.rptID, tx.talkgroup, tx.rptID, tx.timeslot, GROUP_CALL, DATA_SYNC, TERMINATOR_TYPE,
                         tx.streamID, LinkControl(tx.rptID, tx.talkgroup, GROUP_CALL)));
  }

  lemma VoiceOnTheAir(tx: Sender, seqNo: byte, burst: nat, frames: Triple)
    requires burst < BURSTS
    ensures var p := VoicePacket(tx, seqNo, burst, frames);
            && |p| == 53 && FromSender(p, tx) && p[4] == seqNo && Num(p[15] % 128) == (if burst == 0 then 16 else burst)
            && CarriesVoice(p[20..], frames, burst)
  {
    hide FromSender, Packet, Num, Digits, Burst, BurstByte, FrameType, CarriesVoice;
    Numbers(tx.timeslot, burst);
    BurstCarriesVoice(frames, burst);
    Framed(tx, DmrdFrame(seqNo, tx.rptID, tx.talkgroup, tx.rptID, tx.timeslot, GROUP_CALL, FrameType(burst),
                         BurstByte(burst), tx.streamID, Burst(frames, SyncFor(burst))));
  }

  lemma PaddedFrameAt(frames: seq<Ambe>, i: nat)
    requires i < |PadSilence(frames)|
    ensures PadSilence(frames)[i] == FrameAt(frames, i)
  {
    var padded := PadSilence(frames);
    if i < |frames| {
      assert padded[..|frames|][i] == padded[i];
    } else {
      assert padded[i] == SILENCE;
    }
  }

  /** An over of n frames is a header, a burst for every three of them or the rest, and a terminator. Packet k has the
      number k modulo 256, the sender's id as source and repeater, the talkgroup, the slot and the stream. The first and
      the last carry the ids again as link control, the others their three frames bit by bit. */
  lemma OverOnTheAir(tx: Sender, frames: seq<Ambe>, k: nat)
    requires k < (|frames| + 2) / 3 + 2
    ensures var sent := Transmission(tx, frames);
            var last := (|frames| + 2) / 3 + 1;
            && |sent| == last + 1 && |sent[k]| == 53 && FromSender(sent[k], tx)
            && Num(sent[k][4]) == k % 256 && Num(sent[k][15] % 128) == Kind(k, last)
            && (k == 0 || k == last ==> LinkLaidOut(sent[k][20..], tx.rptID, tx.talkgroup, 0))
            && (0 < k < last ==>
                  var i := 3 * (k - 1);
                  CarriesVoice(sent[k][20..], [FrameAt(frames, i), FrameAt(frames, i + 1), FrameAt(frames, i + 2)],
                               (k - 1) % 6))
  {
    hide FromSender, Num, SeqAt, VoicePackets, VoicePacket, HeaderOf, TerminatorOf, LinkLaidOut, CarriesVoice, FrameAt;
    var padded := PadSilence(frames);
    assert |padded| / 3 == (|frames| + 2) / 3;
    SeqCounts(k);
    if k == 0 {
      ZeroIsFirst();
      HeaderOnTheAir(tx);
    } else if k == |padded| / 3 + 1 {
      TerminatorOnTheAir(tx, SeqAt(k));
    } else {
      var i := 3 * (k - 1);
      VoicePacketAt(tx, padded, k - 1);
      VoiceOnTheAir(tx, SeqAt(k), (k - 1) % BURSTS, padded[i..3 * k]);
      PaddedFrameAt(frames, i);
      PaddedFrameAt(frames, i + 1);
      PaddedFrameAt(frames, i + 2);
      assert padded[i..3 * k] == [FrameAt(frames, i), FrameAt(frames, i + 1), FrameAt(frames, i + 2)];
    }
  }
}
