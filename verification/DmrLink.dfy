/** What a DMR bridge makes of the datagrams it receives (dmr_bridge/dmr_client.go:167-271), and what a whole over of
    one bridge is to another. */
module DmrLink {
  import opened Bits
  import opened DmrBurst
  import opened DmrPacket
  import opened DmrClient

  const PING: seq<byte> := [0x4D, 0x53, 0x54, 0x50, 0x49, 0x4E, 0x47]  // "MSTPING"
  const CLOSE: seq<byte> := [0x4D, 0x53, 0x54, 0x43, 0x4C]  // "MSTCL"

  datatype Event = CallStart(srcID: id32, dstID: id32) | Voice(srcID: id32, frames: Triple) | CallEnd(srcID: id32)

  datatype Settings = Settings(rptID: id32, talkgroup: id32, timeslot: byte)

  /** The reader: the stream whose call is on, the callbacks made, the pings answered, and whether it has returned. */
  datatype State = State(currentStream: id32, events: seq<Event>, pongs: nat, stopped: bool)

  function OnFrame(rx: Settings, s: State, f: DmrdFrame): State
    requires |f.payload| == BURST_BYTES
  {
    if f.dstId != rx.talkgroup || f.slot != rx.timeslot || f.rptId == rx.rptID then s
    else if f.IsHeader() then
      if f.streamId != s.currentStream then
        s.(currentStream := f.streamId, events := s.events + [CallStart(f.srcId, f.dstId)])
      else s
    else if f.IsTerminator() then s.(currentStream := 0, events := s.events + [CallEnd(f.srcId)])
    else if f.IsVoice() then s.(events := s.events + [Voice(f.srcId, Frames(f.payload))])
    else s
  }

  function OnDatagram(rx: Settings, s: State, data: seq<byte>): State {
    if s.stopped then s
    else if PING <= data then s.(pongs := s.pongs + 1)
    else if CLOSE <= data then s.(stopped := true)
    else
      match Parse(data)
      case NotDmrd => s
      case Parsed(f) => OnFrame(rx, s, f)
  }

  function Receive(rx: Settings, s: State, wire: seq<seq<byte>>): State {
    if |wire| == 0 then s else OnDatagram(rx, Receive(rx, s, wire[..|wire| - 1]), wire[|wire| - 1])
  }

  // ----- the code ---------------------------------------------------------------------------

  class Receiver {
    const rptID: id32
    const talkgroup: id32
    const timeslot: byte
    var currentStream: id32
    var events: seq<Event>
    var pongs: nat

    ghost function Rx(): Settings { Settings(rptID, talkgroup, timeslot) }

    ghost function Abs(stopped: bool): State
      reads this
    {
      State(currentStream, events, pongs, stopped)
    }

    constructor (rptID: id32, talkgroup: id32, timeslot: byte)
      ensures Rx() == Settings(rptID, talkgroup, timeslot) && Abs(false) == State(0, [], 0, false)
    {
      this.rptID, this.talkgroup, this.timeslot := rptID, talkgroup, timeslot;
      currentStream, events, pongs := 0, [], 0;
    }

    method Dispatch(frame: DmrdFrame)
      requires |frame.payload| == BURST_BYTES
      modifies this
      ensures Abs(false) == OnFrame(Rx(), old(Abs(false)), frame)
    {
      hide Frames;
      if frame.dstId != talkgroup {
        return;
      }
      if frame.slot != timeslot {
        return;
      }
      if frame.rptId == rptID {
        return;
      }
      if frame.IsHeader() {
        if frame.streamId != currentStream {
          currentStream := frame.streamId;
          events := events + [CallStart(frame.srcId, frame.dstId)];
        }
        return;
      }
      if frame.IsTerminator() {
        events := events + [CallEnd(frame.srcId)];
        currentStream := 0;
        return;
      }
      if frame.IsVoice() {
        var ambeFrames := DeinterleaveDMR(frame.payload);
        events := events + [Voice(frame.srcId, ambeFrames)];
      }
    }

    /** The reader over a list of datagrams; stopped says whether the master closed the connection. */
    method RunReader(wire: seq<seq<byte>>) returns (stopped: bool)
      modifies this
      ensures Abs(stopped) == Receive(Rx(), old(Abs(false)), wire)
    {
      hide OnFrame, Parse;
      for i := 0 to |wire|
        invariant Abs(false) == Receive(Rx(), old(Abs(false)), wire[..i])
      {
        assert wire[..i + 1][..i] == wire[..i];
        var data := wire[i];
        if |data| >= 7 && data[..7] == PING {
          pongs := pongs + 1;
          continue;
        }
        if |data| >= 5 && data[..5] == CLOSE {
          StoppedStays(Rx(), old(Abs(false)), wire, i + 1);
          return true;
        }
        var p := ParseDMRDFrame(data);
        if p.Parsed? {
          Dispatch(p.frame);
        }
      }
      assert wire[..|wire|] == wire;
      return false;
    }
  }

  lemma {:induction false} StoppedStays(rx: Settings, s: State, wire: seq<seq<byte>>, i: nat)
    requires i <= |wire| && Receive(rx, s, wire[..i]).stopped
    ensures Receive(rx, s, wire) == Receive(rx, s, wire[..i])
    decreases |wire|
  {
    hide OnFrame, Parse;
    if i == |wire| {
      assert wire[..i] == wire;
    } else {
      assert wire[..|wire| - 1][..i] == wire[..i];
      StoppedStays(rx, s, wire[..|wire| - 1], i);
    }
  }

  // ----- an over, end to end ----------------------------------------------------------------

  /** The receiver is on the sender's talkgroup and slot as they appear on the air, and is not the sender. */
  predicate Hears(rx: Settings, tx: Sender) {
    rx.talkgroup == Low24(tx.talkgroup) && rx.timeslot == tx.timeslot & 0x01 && rx.rptID != tx.rptID
  }

  function Voices(srcID: id32, frames: seq<Ambe>): seq<Event>
    decreases |frames|
  {
    if |frames| < 3 then []
    else
      var n := |frames| / 3;
      Voices(srcID, frames[..3 * (n - 1)]) + [Voice(srcID, frames[3 * (n - 1)..3 * n])]
  }

  /** All the voice in a list of callbacks, in order. */
  function VoiceOf(events: seq<Event>): seq<Ambe> {
    if |events| == 0 then []
    else
      var e := events[|events| - 1];
      VoiceOf(events[..|events| - 1]) + if e.Voice? then e.frames else []
  }

  lemma {:induction false} VoiceOfVoices(srcID: id32, frames: seq<Ambe>)
    requires |frames| % 3 == 0
    ensures VoiceOf(Voices(srcID, frames)) == frames
    decreases |frames|
  {
    if |frames| >= 3 {
      var k := |frames| - 3;
      VoiceOfVoices(srcID, frames[..k]);
      var events := Voices(srcID, frames);
      assert events[..|events| - 1] == Voices(srcID, frames[..k]);
      assert frames == frames[..k] + frames[k..];
    } else {
      assert frames == [];
    }
  }

  lemma SmallFields(burst: nat)
    requires burst < BURSTS
    ensures BurstByte(burst) & 0x0F == BurstByte(burst) && FrameType(burst) & 0x03 == FrameType(burst)
    ensures DATA_SYNC & 0x03 == DATA_SYNC && HEADER_TYPE & 0x0F == HEADER_TYPE
    ensures TERMINATOR_TYPE & 0x0F == TERMINATOR_TYPE
  {
  }

  lemma NotAControl(f: DmrdFrame)
    requires |f.payload| == BURST_BYTES
    ensures !(PING <= Packet(f)) && !(CLOSE <= Packet(f))
  {
    assert Packet(f)[0] == SIGNATURE[0] == 0x44;
    assert PING[0] == 0x4D && CLOSE[0] == 0x4D;
  }

  lemma OnPacket(rx: Settings, s: State, f: DmrdFrame)
    requires |f.payload| == BURST_BYTES && !s.stopped
    ensures OnDatagram(rx, s, Packet(f)) == OnFrame(rx, s, Narrowed(f))
  {
    hide Packet, Parse, OnFrame, Narrowed;
    PacketRoundTrip(f);
    NotAControl(f);
  }

  lemma OnHeader(rx: Settings, s: State, tx: Sender)
    requires !s.stopped
    ensures OnDatagram(rx, s, HeaderOf(tx)) ==
            if Hears(rx, tx) && tx.streamID != s.currentStream
            then s.(currentStream := tx.streamID, events := s.events + [CallStart(Low24(tx.rptID), rx.talkgroup)])
            else s
  {
    hide Packet, LinkControl, Low24, OnDatagram;
    SmallFields(0);
    OnPacket(rx, s, DmrdFrame(0, tx.rptID, tx.talkgroup, tx.rptID, tx.timeslot, GROUP_CALL, DATA_SYNC, HEADER_TYPE,
                              tx.streamID, LinkControl(tx.rptID, tx.talkgroup, GROUP_CALL)));
  }

  lemma OnVoice(rx: Settings, s: State, tx: Sender, seqNo: byte, burst: nat, frames: Triple)
    requires !s.stopped && burst < BURSTS
    ensures OnDatagram(rx, s, VoicePacket(tx, seqNo, burst, frames)) ==
            if Hears(rx, tx) then s.(events := s.events + [Voice(Low24(tx.rptID), frames)]) else s
  {
    hide Packet, Low24, OnDatagram, Burst, Frames, BurstByte;
    SmallFields(burst);
    FramesComeBack(frames, SyncFor(burst));
    OnPacket(rx, s, DmrdFrame(seqNo, tx.rptID, tx.talkgroup, tx.rptID, tx.timeslot, GROUP_CALL, FrameType(burst),
                              BurstByte(burst), tx.streamID, Burst(frames, SyncFor(burst))));
  }

  lemma OnTerminator(rx: Settings, s: State, tx: Sender, seqNo: byte)
    requires !s.stopped
    ensures OnDatagram(rx, s, TerminatorOf(tx, seqNo)) ==
            if Hears(rx, tx) then s.(currentStream := 0, events := s.events + [CallEnd(Low24(tx.rptID))]) else s
  {
    hide Packet, LinkControl, Low24, OnDatagram;
    SmallFields(0);
    OnPacket(rx, s, DmrdFrame(seqNo, tx.rptID, tx.talkgroup, tx.rptID, tx.timeslot, GROUP_CALL, DATA_SYNC,
                              TERMINATOR_TYPE, tx.streamID, LinkControl(tx.rptID, tx.talkgroup, GROUP_CALL)));
  }

  lemma {:induction false} OnVoicePackets(rx: Settings, s: State, tx: Sender, head: seq<seq<byte>>, frames: seq<Ambe>)
    requires !Receive(rx, s, head).stopped
    ensures var u := Receive(rx, s, head);
            Receive(rx, s, head + VoicePackets(tx, frames)) ==
            if Hears(rx, tx) then u.(events := u.events + Voices(Low24(tx.rptID), frames)) else u
    decreases |frames|
  {
    hide Hears, VoicePacket, OnDatagram, Low24, SeqAt;
    var wire := head + VoicePackets(tx, frames);
    if |frames| < 3 {
      assert wire == head;
    } else {
      var n := |frames| / 3;
      OnVoicePackets(rx, s, tx, head, frames[..3 * (n - 1)]);
      assert wire[..|wire| - 1] == head + VoicePackets(tx, frames[..3 * (n - 1)]);
      OnVoice(rx, Receive(rx, s, wire[..|wire| - 1]), tx, SeqAt(n), (n - 1) % BURSTS, frames[3 * (n - 1)..3 * n]);
    }
  }

  /** What the callbacks of a receiver see of an over. A call that starts while the same stream is already on, and so
      also any call that drew stream id 0 while nothing was on, has no start. */
  function Story(s: State, tx: Sender, dstID: id32, frames: seq<Ambe>): seq<Event> {
    (if tx.streamID != s.currentStream then [CallStart(Low24(tx.rptID), dstID)] else []) +
    Voices(Low24(tx.rptID), PadSilence(frames)) + [CallEnd(Low24(tx.rptID))]
  }

  /** Every over is heard exactly by those it is meant for: a receiver either takes all of it, as one call whose voice
      is the frames in order and less than a burst of silence, or takes no notice at all. */
  lemma TransmissionIsHeard(rx: Settings, s: State, tx: Sender, frames: seq<Ambe>)
    requires !s.stopped
    ensures Receive(rx, s, Transmission(tx, frames)) ==
            if Hears(rx, tx) then s.(currentStream := 0, events := s.events + Story(s, tx, rx.talkgroup, frames)) else s
  {
    hide Hears, HeaderOf, TerminatorOf, VoicePackets, Voices, OnDatagram, Low24, SeqAt;
    var padded := PadSilence(frames);
    hide PadSilence;
    var wire := Transmission(tx, frames);
    assert [HeaderOf(tx)][..0] == [];
    OnHeader(rx, s, tx);
    OnVoicePackets(rx, s, tx, [HeaderOf(tx)], padded);
    assert wire[..|wire| - 1] == [HeaderOf(tx)] + VoicePackets(tx, padded);
    OnTerminator(rx, Receive(rx, s, wire[..|wire| - 1]), tx, SeqAt(|padded| / 3 + 1));
  }

  /** The talkgroup fits its 24 bits on the air and the slot its one. */
  predicate Fits(tx: Sender) {
    Low24(tx.talkgroup) == tx.talkgroup && tx.timeslot & 0x01 == tx.timeslot
  }

  ghost predicate OneCall(events: seq<Event>, srcID: id32, dstID: id32, frames: seq<Ambe>, voices: seq<Event>) {
    && events == [CallStart(srcID, dstID)] + voices + [CallEnd(srcID)]
    && (forall i :: 0 <= i < |voices| ==> voices[i].Voice? && voices[i].srcID == srcID)
    && frames <= VoiceOf(voices) && |VoiceOf(voices)| < |frames| + 3
    && forall k :: |frames| <= k < |VoiceOf(voices)| ==> VoiceOf(voices)[k] == SILENCE
  }

  /** Between two bridges with the same talkgroup and slot but different ids, an idle one hears one call start, exactly
      the frames with at most two of silence behind them, and one call end, if and only if the stream id is not 0, the
      talkgroup fits its 24 bits and the slot its one. */
  lemma PeersHearOneCall(rptID: id32, tx: Sender, frames: seq<Ambe>)
    requires rptID != tx.rptID
    ensures var rx := Settings(rptID, tx.talkgroup, tx.timeslot);
            var t := Receive(rx, State(0, [], 0, false), Transmission(tx, frames));
            Fits(tx) && tx.streamID != 0 <==>
            exists voices: seq<Event> :: OneCall(t.events, Low24(tx.rptID), tx.talkgroup, frames, voices)
  {
    hide Low24, Receive, Transmission, PadSilence, Hears, Fits, Voices;
    var rx := Settings(rptID, tx.talkgroup, tx.timeslot);
    var s := State(0, [], 0, false);
    HearsIfFits(rx, tx);
    TransmissionIsHeard(rx, s, tx, frames);
    var voices := Voices(Low24(tx.rptID), PadSilence(frames));
    VoiceOfVoices(Low24(tx.rptID), PadSilence(frames));
    VoicesAreVoice(Low24(tx.rptID), PadSilence(frames));
    var story := Story(s, tx, rx.talkgroup, frames);
    var t := Receive(rx, s, Transmission(tx, frames));
    assert t.events == if Fits(tx) then story else [];
    if tx.streamID != 0 {
      assert story == [CallStart(Low24(tx.rptID), tx.talkgroup)] + voices + [CallEnd(Low24(tx.rptID))];
      assert OneCall(story, Low24(tx.rptID), tx.talkgroup, frames, voices);
    } else {
      assert story[0] == if |voices| > 0 then voices[0] else CallEnd(Low24(tx.rptID));
      NotOneCall(t.events, Low24(tx.rptID), tx.talkgroup, frames);
    }
  }

  lemma NotOneCall(events: seq<Event>, srcID: id32, dstID: id32, frames: seq<Ambe>)
    requires |events| == 0 || !events[0].CallStart?
    ensures forall voices :: !OneCall(events, srcID, dstID, frames, voices)
  {
  }

  lemma HearsIfFits(rx: Settings, tx: Sender)
    requires rx.rptID != tx.rptID && rx.talkgroup == tx.talkgroup && rx.timeslot == tx.timeslot
    ensures Hears(rx, tx) <==> Fits(tx)
  {
  }

  lemma {:induction false} VoicesAreVoice(srcID: id32, frames: seq<Ambe>)
    ensures forall i :: 0 <= i < |Voices(srcID, frames)| ==>
              Voices(srcID, frames)[i].Voice? && Voices(srcID, frames)[i].srcID == srcID
    decreases |frames|
  {
    if |frames| >= 3 {
      VoicesAreVoice(srcID, frames[..3 * (|frames| / 3 - 1)]);
    }
  }

  // ----- numbering --------------------------------------------------------------------------

  lemma {:induction false} VoicePacketAt(tx: Sender, frames: seq<Ambe>, k: nat)
    requires k < |frames| / 3
    ensures VoicePackets(tx, frames)[k] == VoicePacket(tx, SeqAt(k + 1), k % BURSTS, frames[3 * k..3 * (k + 1)])
    decreases |frames|
  {
    hide VoicePacket, SeqAt;
    var n := |frames| / 3;
    if k < n - 1 {
      VoicePacketAt(tx, frames[..3 * (n - 1)], k);
      assert frames[..3 * (n - 1)][3 * k..3 * (k + 1)] == frames[3 * k..3 * (k + 1)];
    }
  }

  lemma BurstNumbers(burst: nat)
    requires burst < BURSTS
    ensures Num(BurstByte(burst)) == burst
  {
  }

  lemma HeaderParses(tx: Sender)
    ensures var p := Parse(HeaderOf(tx));
            p.Parsed? && p.frame.seqNo == 0 && p.frame.streamId == tx.streamID && p.frame.IsHeader()
  {
    hide Parse, Packet, Low24, LinkControl;
    SmallFields(0);
    PacketRoundTrip(DmrdFrame(0, tx.rptID, tx.talkgroup, tx.rptID, tx.timeslot, GROUP_CALL, DATA_SYNC, HEADER_TYPE,
                              tx.streamID, LinkControl(tx.rptID, tx.talkgroup, GROUP_CALL)));
  }

  lemma TerminatorParses(tx: Sender, seqNo: byte)
    ensures var p := Parse(TerminatorOf(tx, seqNo));
            p.Parsed? && p.frame.seqNo == seqNo && p.frame.streamId == tx.streamID && p.frame.IsTerminator()
  {
    hide Parse, Packet, Low24, LinkControl;
    SmallFields(0);
    PacketRoundTrip(DmrdFrame(seqNo, tx.rptID, tx.talkgroup, tx.rptID, tx.timeslot, GROUP_CALL, DATA_SYNC,
                              TERMINATOR_TYPE, tx.streamID, LinkControl(tx.rptID, tx.talkgroup, GROUP_CALL)));
  }

  lemma VoiceParses(tx: Sender, seqNo: byte, burst: nat, frames: Triple)
    requires burst < BURSTS
    ensures var p := Parse(VoicePacket(tx, seqNo, burst, frames));
            && p.Parsed? && p.frame.seqNo == seqNo && p.frame.streamId == tx.streamID && p.frame.IsVoice()
            && Num(p.frame.voiceSeq) == burst && (p.frame.frameType == VOICE_SYNC_TYPE <==> burst == 0)
  {
    hide Parse, Packet, Low24, Burst, BurstByte, Num;
    SmallFields(burst);
    BurstNumbers(burst);
    PacketRoundTrip(DmrdFrame(seqNo, tx.rptID, tx.talkgroup, tx.rptID, tx.timeslot, GROUP_CALL, FrameType(burst),
                              BurstByte(burst), tx.streamID, Burst(frames, SyncFor(burst))));
  }

  /** Every packet of an over parses, with consecutive sequence numbers modulo 256; the first is a header, the last a
      terminator, and those between are voice whose burst numbers cycle modulo 6, each cycle starting with a sync. */
  lemma PacketsAreNumbered(tx: Sender, frames: seq<Ambe>, k: nat)
    requires k < |Transmission(tx, frames)|
    ensures var sent := Transmission(tx, frames);
            var p := Parse(sent[k]);
            && p.Parsed? && Num(p.frame.seqNo) == k % 256 && p.frame.streamId == tx.streamID
            && (k == 0 ==> p.frame.IsHeader())
            && (k == |sent| - 1 ==> p.frame.IsTerminator())
            && (0 < k < |sent| - 1 ==> (p.frame.IsVoice() && Num(p.frame.voiceSeq) == (k - 1) % BURSTS &&
                                        (p.frame.frameType == VOICE_SYNC_TYPE <==> (k - 1) % BURSTS == 0)))
  {
    hide Parse, Num, SeqAt, VoicePackets, VoicePacket, HeaderOf, TerminatorOf, PadSilence;
    var padded := PadSilence(frames);
    SeqCounts(k);
    if k == 0 {
      ZeroIsFirst();
      HeaderParses(tx);
    } else if k == |padded| / 3 + 1 {
      TerminatorParses(tx, SeqAt(k));
    } else {
      VoicePacketAt(tx, padded, k - 1);
      VoiceParses(tx, SeqAt(k), (k - 1) % BURSTS, padded[3 * (k - 1)..3 * k]);
    }
  }

  lemma ZeroIsFirst()
    ensures SeqAt(0) == 0
  {
  }

  // ----- the other datagrams ----------------------------------------------------------------

  /** The reader returns at the first datagram that begins with MSTCL, and not before. */
  lemma {:induction false} ReturnsAtClose(rx: Settings, s: State, wire: seq<seq<byte>>)
    requires !s.stopped
    ensures Receive(rx, s, wire).stopped <==> exists i :: 0 <= i < |wire| && [0x4D, 0x53, 0x54, 0x43, 0x4C] <= wire[i]
    decreases |wire|
  {
    hide OnFrame, Parse;
    if |wire| > 0 {
      var n := |wire| - 1;
      ReturnsAtClose(rx, s, wire[..n]);
      CloseStops(rx, Receive(rx, s, wire[..n]), wire[n]);
      if i :| 0 <= i < |wire| && [0x4D, 0x53, 0x54, 0x43, 0x4C] <= wire[i] {
        assert i < n ==> wire[..n][i] == wire[i];
      }
      if i :| 0 <= i < n && [0x4D, 0x53, 0x54, 0x43, 0x4C] <= wire[..n][i] {
        assert wire[i] == wire[..n][i];
      }
    }
  }

  lemma CloseStops(rx: Settings, s: State, data: seq<byte>)
    ensures OnDatagram(rx, s, data).stopped <==> s.stopped || [0x4D, 0x53, 0x54, 0x43, 0x4C] <= data
  {
    hide Parse, Frames;
    assert PING[3] != CLOSE[3];
  }

  /** A datagram that begins with MSTPING is answered and does nothing else; no other is. */
  lemma PingsAreAnswered(rx: Settings, s: State, data: seq<byte>)
    requires !s.stopped
    ensures OnDatagram(rx, s, data).pongs
            == s.pongs + if [0x4D, 0x53, 0x54, 0x50, 0x49, 0x4E, 0x47] <= data then 1 else 0
    ensures ([0x4D, 0x53, 0x54, 0x50, 0x49, 0x4E, 0x47] <= data ==>
             OnDatagram(rx, s, data) == State(s.currentStream, s.events, s.pongs + 1, false))
  {
    hide Parse;
  }
}
