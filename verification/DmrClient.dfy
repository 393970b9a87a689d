/** Sending voice to a DMR master: a header, bursts of three AMBE frames, a terminator
    (dmr_bridge/dmr_client.go:273-364). */
module DmrClient {
  import opened Bits
  import opened DmrBurst
  import opened DmrPacket

  const BURSTS := 6

  /** Who sends: the settings of a client and the stream id it drew. */
  datatype Sender = Sender(rptID: id32, talkgroup: id32, timeslot: byte, streamID: id32)

  function NextSeq(b: byte): byte { b + 1 }

  function SeqAt(j: nat): byte {
    if j == 0 then 0 else NextSeq(SeqAt(j - 1))
  }

  function HeaderOf(tx: Sender): seq<byte> {
    HeaderPacket(0, tx.rptID, tx.talkgroup, tx.rptID, tx.streamID, tx.timeslot, GROUP_CALL)
  }

  function FrameType(burst: nat): byte {
    if burst == 0 then VOICE_SYNC_TYPE else VOICE
  }

  function BurstByte(burst: nat): byte
    requires burst < BURSTS
  {
    match burst case 0 => 0 case 1 => 1 case 2 => 2 case 3 => 3 case 4 => 4 case _ => 5
  }

  function VoicePacket(tx: Sender, seqNo: byte, burst: nat, frames: Triple): seq<byte>
    requires burst < BURSTS
  {
    Packet(DmrdFrame(seqNo, tx.rptID, tx.talkgroup, tx.rptID, tx.timeslot, GROUP_CALL, FrameType(burst),
                     BurstByte(burst), tx.streamID, Burst(frames, SyncFor(burst))))
  }

  /** The voice packets for the whole groups of three among frames. */
  function VoicePackets(tx: Sender, frames: seq<Ambe>): (pkts: seq<seq<byte>>)
    ensures |pkts| == |frames| / 3
    decreases |frames|
  {
    if |frames| < 3 then []
    else
      var n := |frames| / 3;
      VoicePackets(tx, frames[..3 * (n - 1)])
      + [VoicePacket(tx, SeqAt(n), (n - 1) % BURSTS, frames[3 * (n - 1)..3 * n])]
  }

  /** The frames with silence up to the next multiple of three. */
  function PadSilence(frames: seq<Ambe>): (r: seq<Ambe>)
    ensures |r| % 3 == 0 && |frames| <= |r| < |frames| + 3 && r[..|frames|] == frames
    ensures forall k :: |frames| <= k < |r| ==> r[k] == SILENCE
    decreases (3 - |frames| % 3) % 3
  {
    if |frames| % 3 == 0 then frames else PadSilence(frames + [SILENCE])
  }

  function TerminatorOf(tx: Sender, seqNo: byte): seq<byte> {
    TerminatorPacket(seqNo, tx.rptID, tx.talkgroup, tx.rptID, tx.streamID, tx.timeslot, GROUP_CALL)
  }

  /** Everything that one over puts on the wire. */
  function Transmission(tx: Sender, frames: seq<Ambe>): seq<seq<byte>> {
    var padded := PadSilence(frames);
    [HeaderOf(tx)] + VoicePackets(tx, padded) + [TerminatorOf(tx, SeqAt(|padded| / 3 + 1))]
  }

  function Num(b: byte): nat { b as nat }

  /** Sequence numbers are consecutive modulo 256. */
  lemma {:induction false} SeqCounts(j: nat)
    ensures Num(SeqAt(j)) == j % 256
  {
    hide NextSeq, Num;
    if j == 0 {
      NumOfZero();
    } else {
      SeqCounts(j - 1);
      Increment(SeqAt(j - 1));
    }
  }

  lemma NumOfZero()
    ensures Num(0) == 0
  {
  }

  lemma Increment(b: byte)
    ensures Num(NextSeq(b)) == (Num(b) + 1) % 256
  {
  }

  // ----- the code ---------------------------------------------------------------------------

  class Client {
    const rptID: id32
    const talkgroup: id32
    const timeslot: byte
    var txStreamID: id32
    var txSeq: byte
    var txBurst: nat
    var txBuf: seq<Ambe>
    /** The datagrams handed to the socket so far. */
    var wire: seq<seq<byte>>

    ghost predicate Valid()
      reads this
    {
      |txBuf| < 3 && txBurst < BURSTS
    }

    ghost function Tx(): Sender
      reads this
    {
      Sender(rptID, talkgroup, timeslot, txStreamID)
    }

    constructor (rptID: id32, talkgroup: id32, timeslot: byte)
      ensures this.rptID == rptID && this.talkgroup == talkgroup && this.timeslot == timeslot
      ensures Valid() && wire == []
    {
      this.rptID, this.talkgroup, this.timeslot := rptID, talkgroup, timeslot;
      txStreamID, txSeq, txBurst, txBuf, wire := 0, 0, 0, [], [];
    }

    /** random is the draw that becomes the stream id. */
    method StartTX(random: id32)
      modifies this
      ensures txStreamID == random && txSeq == NextSeq(0) && txBurst == 0 && txBuf == [] && Valid()
      ensures wire == old(wire) + [HeaderOf(Tx())]
    {
      hide HeaderPacket, NextSeq;
      txStreamID := random;
      txSeq := 0;
      txBurst := 0;
      txBuf := [];
      var header := BuildVoiceLCHeader(txSeq, rptID, talkgroup, rptID, txStreamID, timeslot, GROUP_CALL);
      wire := wire + [header];
      txSeq := NextSeq(txSeq);
    }

    /** Sends the three buffered frames. */
    method SendBurst()
      requires |txBuf| == 3 && txBurst < BURSTS
      modifies `wire, `txBuf, `txSeq
      ensures wire == old(wire) + [VoicePacket(Tx(), old(txSeq), txBurst, old(txBuf))]
      ensures txBuf == [] && txSeq == NextSeq(old(txSeq))
    {
      hide Packet, Burst, NextSeq;
      var frames: Triple := [txBuf[0], txBuf[1], txBuf[2]];
      assert frames == txBuf;
      txBuf := [];
      var payload := BuildAMBEPayload(frames, txBurst);
      var frameType: byte;
      if txBurst == 0 {
        frameType := VOICE_SYNC_TYPE;
      } else {
        frameType := VOICE;
      }
      var pkt := BuildDMRDFrame(txSeq, rptID, talkgroup, rptID, timeslot, GROUP_CALL, frameType, BurstByte(txBurst),
                                txStreamID, payload);
      wire := wire + [pkt];
      txSeq := NextSeq(txSeq);
    }

    method SendVoice(ambe: Ambe)
      requires Valid()
      modifies this
      ensures Valid() && Tx() == old(Tx())
      ensures |old(txBuf)| < 2 ==>
                txBuf == old(txBuf) + [ambe] && wire == old(wire) && txSeq == old(txSeq) && txBurst == old(txBurst)
      ensures |old(txBuf)| == 2 ==>
                && txBuf == [] && txSeq == NextSeq(old(txSeq)) && txBurst == (old(txBurst) + 1) % BURSTS
                && wire == old(wire) + [VoicePacket(Tx(), old(txSeq), old(txBurst), old(txBuf) + [ambe])]
    {
      hide VoicePacket;
      txBuf := txBuf + [ambe];
      if |txBuf| < 3 {
        return;
      }
      SendBurst();
      txBurst := (txBurst + 1) % 6;
    }

    /** The burst counter stays where it is: StartTX resets it. */
    method StopTX()
      requires Valid()
      modifies this
      ensures Valid() && Tx() == old(Tx()) && txBuf == [] && txBurst == old(txBurst)
      ensures old(txBuf) == [] ==> wire == old(wire) + [TerminatorOf(Tx(), old(txSeq))]
      ensures old(txBuf) != [] ==>
                wire == old(wire) + [VoicePacket(Tx(), old(txSeq), old(txBurst), PadSilence(old(txBuf)))] +
                        [TerminatorOf(Tx(), NextSeq(old(txSeq)))]
    {
      hide VoicePacket, TerminatorPacket;
      while |txBuf| > 0 && |txBuf| < 3
        invariant |txBuf| <= 3 && (|txBuf| == 0 <==> |old(txBuf)| == 0)
        invariant PadSilence(txBuf) == PadSilence(old(txBuf))
        invariant Tx() == old(Tx()) && wire == old(wire) && txSeq == old(txSeq) && txBurst == old(txBurst)
        decreases 3 - |txBuf|
      {
        txBuf := txBuf + [SILENCE];
      }
      if |txBuf| == 3 {
        SendBurst();
      }
      var term := BuildVoiceTerminator(txSeq, rptID, talkgroup, rptID, txStreamID, timeslot, GROUP_CALL);
      wire := wire + [term];
    }

    /** before was on the wire at StartTX, and frames is what has been sent since. */
    ghost predicate Sending(before: seq<seq<byte>>, frames: seq<Ambe>)
      reads this
    {
      var j := |frames| / 3;
      && wire == before + [HeaderOf(Tx())] + VoicePackets(Tx(), frames[..3 * j])
      && txBuf == frames[3 * j..] && txSeq == SeqAt(j + 1) && txBurst == j % BURSTS
    }

    method SendNext(ambe: Ambe, ghost before: seq<seq<byte>>, ghost frames: seq<Ambe>)
      requires Sending(before, frames)
      modifies this
      ensures Sending(before, frames + [ambe]) && Tx() == old(Tx())
    {
      hide HeaderOf, VoicePacket, SeqAt, VoicePackets, NextSeq;
      ghost var j := |frames| / 3;
      ghost var now := frames + [ambe];
      assert now[..3 * j] == frames[..3 * j] && now[3 * j..] == txBuf + [ambe];
      SendVoice(ambe);
      if |frames| % 3 == 2 {
        MorePackets(Tx(), now, j);
        assert now[3 * j..] == now[3 * j..3 * (j + 1)];
        assert |now| / 3 == j + 1 && (j % BURSTS + 1) % BURSTS == (j + 1) % BURSTS;
      } else {
        assert |now| / 3 == j;
      }
    }

    method Begin(random: id32)
      modifies this
      ensures Valid() && Sending(old(wire), []) && txStreamID == random
    {
      hide HeaderOf, NextSeq;
      StartTX(random);
      assert VoicePackets(Tx(), []) == [];
    }

    method Finish(ghost before: seq<seq<byte>>, ghost frames: seq<Ambe>)
      requires Sending(before, frames)
      modifies this
      ensures wire == before + Transmission(Tx(), frames) && Tx() == old(Tx()) && Valid()
    {
      hide HeaderOf, TerminatorOf, VoicePacket, SeqAt, VoicePackets, PadSilence, Transmission, NextSeq;
      TransmissionEnds(Tx(), frames);
      StopTX();
    }

    /** One whole over. */
    method Transmit(random: id32, frames: seq<Ambe>)
      requires Valid()
      modifies this
      ensures Valid() && txStreamID == random && wire == old(wire) + Transmission(Tx(), frames)
    {
      hide Sending, Transmission;
      Begin(random);
      ghost var tx := Tx();
      for k := 0 to |frames|
        invariant Sending(old(wire), frames[..k]) && Tx() == tx
      {
        SendNext(frames[k], old(wire), frames[..k]);
        assert frames[..k] + [frames[k]] == frames[..k + 1];
      }
      assert frames[..|frames|] == frames;
      Finish(old(wire), frames);
    }
  }

  lemma MorePackets(tx: Sender, frames: seq<Ambe>, n: nat)
    requires 3 * (n + 1) <= |frames|
    ensures VoicePackets(tx, frames[..3 * (n + 1)])
            == VoicePackets(tx, frames[..3 * n])
               + [VoicePacket(tx, SeqAt(n + 1), n % BURSTS, frames[3 * n..3 * (n + 1)])]
    ensures SeqAt(n + 2) == NextSeq(SeqAt(n + 1))
  {
    hide VoicePacket;
    var now := frames[..3 * (n + 1)];
    assert now[..3 * n] == frames[..3 * n] && now[3 * n..3 * (n + 1)] == frames[3 * n..3 * (n + 1)];
  }

  lemma PaddingIsAtTheEnd(head: seq<Ambe>, tail: seq<Ambe>)
    requires |head| % 3 == 0
    ensures PadSilence(head + tail) == head + PadSilence(tail)
    decreases (3 - |tail| % 3) % 3
  {
    if |tail| % 3 != 0 {
      PaddingIsAtTheEnd(head, tail + [SILENCE]);
      assert head + (tail + [SILENCE]) == (head + tail) + [SILENCE];
    }
  }

  function Ending(tx: Sender, n: nat, rest: seq<Ambe>): seq<seq<byte>>
    requires |rest| < 3
  {
    if rest == [] then [TerminatorOf(tx, SeqAt(n + 1))]
    else [VoicePacket(tx, SeqAt(n + 1), n % BURSTS, PadSilence(rest))] + [TerminatorOf(tx, NextSeq(SeqAt(n + 1)))]
  }

  /** An over that does not end on a whole burst gets one more burst. */
  lemma LastPackets(tx: Sender, frames: seq<Ambe>)
    requires |frames| % 3 != 0
    ensures var n := |frames| / 3;
            && |PadSilence(frames)| == 3 * (n + 1)
            && VoicePackets(tx, PadSilence(frames))
               == VoicePackets(tx, frames[..3 * n]) +
                  [VoicePacket(tx, SeqAt(n + 1), n % BURSTS, PadSilence(frames[3 * n..]))]
  {
    hide VoicePacket, VoicePackets;
    var n := |frames| / 3;
    var padded := PadSilence(frames);
    assert frames == frames[..3 * n] + frames[3 * n..];
    PaddingIsAtTheEnd(frames[..3 * n], frames[3 * n..]);
    MorePackets(tx, padded, n);
    assert padded[..3 * (n + 1)] == padded && padded[..3 * n] == frames[..3 * n];
  }

  lemma Regroup(a: seq<seq<byte>>, b: seq<seq<byte>>, c: seq<seq<byte>>, d: seq<seq<byte>>)
    ensures a + (b + c) + d == a + b + (c + d)
  {
  }

  lemma TransmissionEnds(tx: Sender, frames: seq<Ambe>)
    ensures var n := |frames| / 3;
            Transmission(tx, frames)
            == [HeaderOf(tx)] + VoicePackets(tx, frames[..3 * n]) + Ending(tx, n, frames[3 * n..])
  {
    hide VoicePacket, HeaderOf, TerminatorOf, VoicePackets, NextSeq;
    var n := |frames| / 3;
    if |frames| % 3 == 0 {
      assert frames[..3 * n] == frames;
    } else {
      LastPackets(tx, frames);
      hide PadSilence;
      assert SeqAt(n + 2) == NextSeq(SeqAt(n + 1));
      Regroup([HeaderOf(tx)], VoicePackets(tx, frames[..3 * n]),
              [VoicePacket(tx, SeqAt(n + 1), n % BURSTS, PadSilence(frames[3 * n..]))],
              [TerminatorOf(tx, SeqAt(n + 2))]);
    }
  }
}
