/** The YSF to SVX receive path: voice callback, stream end and watchdog (ysf_bridge/main.go).

    The vocoder, the band-pass filter and the AGC are one unknown function of everything they have been given, resets
    included; every frame makes 160 samples. The OPUS encoder takes chunks of 480. */
module YsfReceive {
  import opened Bits
  import opened Ysfd
  import Vd2

  newtype int16 = x: int | -0x8000 <= x < 0x8000

  type Pcm = seq<int16>
  type Block = b: seq<int16> | |b| == BLOCK witness seq(BLOCK, _ => 0)

  const BLOCK := 160
  const CHUNK := 480

  datatype VocoderInput = Reset | Ambe(frame: seq<byte>)

  type Decoder = seq<VocoderInput> -> Block

  datatype SvxCall = TalkerStart | Audio(chunk: Pcm) | TalkerStop

  // ----- cutting a sample stream into chunks ------------------------------------------------

  function Full(s: Pcm): seq<SvxCall> {
    if |s| < CHUNK then [] else [Audio(s[..CHUNK])] + Full(s[CHUNK..])
  }

  function Rest(s: Pcm): (r: Pcm)
    ensures |r| < CHUNK
  {
    if |s| < CHUNK then s else Rest(s[CHUNK..])
  }

  function Silence(n: nat): (z: Pcm)
    ensures |z| == n
  {
    seq(n, _ => 0)
  }

  /** The last chunk, filled up with zeros; none if the samples came out even. */
  function Tail(s: Pcm): seq<SvxCall> {
    var r := Rest(s);
    if |r| == 0 then [] else [Audio(r + Silence(CHUNK - |r|))]
  }

  lemma {:induction false} FullGrows(s: Pcm, b: Pcm)
    requires |b| <= CHUNK
    ensures var r := Rest(s) + b;
            if |r| < CHUNK then Full(s + b) == Full(s) && Rest(s + b) == r
            else Full(s + b) == Full(s) + [Audio(r[..CHUNK])] && Rest(s + b) == r[CHUNK..]
    decreases |s|
  {
    if |s| < CHUNK {
      var t := s + b;
      if |t| >= CHUNK {
        assert |t[CHUNK..]| < CHUNK;
        assert Full(t) == [Audio(t[..CHUNK])];
      }
    } else {
      FullGrows(s[CHUNK..], b);
      assert (s + b)[CHUNK..] == s[CHUNK..] + b && (s + b)[..CHUNK] == s[..CHUNK];
    }
  }

  /** All samples in a list of calls, in order. */
  function Samples(calls: seq<SvxCall>): Pcm {
    if |calls| == 0 then [] else Samples(calls[..|calls| - 1]) + SamplesOf(calls[|calls| - 1])
  }

  function SamplesOf(call: SvxCall): Pcm {
    if call.Audio? then call.chunk else []
  }

  lemma {:induction false} SamplesConcat(p: seq<SvxCall>, q: seq<SvxCall>)
    ensures Samples(p + q) == Samples(p) + Samples(q)
  {
    hide SamplesOf;
    if |q| == 0 {
      assert p + q == p;
    } else {
      SamplesConcat(p, q[..|q| - 1]);
      assert (p + q)[..|p + q| - 1] == p + q[..|q| - 1];
    }
  }

  predicate OnlyChunks(calls: seq<SvxCall>) {
    forall c :: c in calls ==> c.Audio? && |c.chunk| == CHUNK
  }

  lemma {:induction false} FullConserves(s: Pcm)
    ensures OnlyChunks(Full(s)) && Samples(Full(s)) + Rest(s) == s
    decreases |s|
  {
    if |s| >= CHUNK {
      FullConserves(s[CHUNK..]);
      var first := [Audio(s[..CHUNK])];
      SamplesConcat(first, Full(s[CHUNK..]));
      assert first[..0] == [];
      assert Samples(first) == s[..CHUNK];
      assert s == s[..CHUNK] + s[CHUNK..];
    }
  }

  /** Conservation: the chunks of a finished stream hold exactly its samples, in order, and after them fewer than 480
      zeros that all stand in the last chunk. */
  lemma ChunksConserve(s: Pcm)
    ensures OnlyChunks(Full(s) + Tail(s))
    ensures var n := |Samples(Full(s) + Tail(s))| - |s|;
            0 <= n < CHUNK && Samples(Full(s) + Tail(s)) == s + Silence(n)
    ensures Tail(s) == [] ==> Samples(Full(s)) == s
  {
    FullConserves(s);
    SamplesConcat(Full(s), Tail(s));
    var r := Rest(s);
    TailIsPadded(s);
    hide Samples, Full, Tail, Rest;
    if |r| > 0 {
      assert Samples(Full(s) + Tail(s)) == s + Silence(CHUNK - |r|);
    } else {
      assert Samples(Full(s) + Tail(s)) == s == s + Silence(0);
    }
  }

  lemma TailIsPadded(s: Pcm)
    ensures var r := Rest(s);
            && OnlyChunks(Tail(s)) && |r| < CHUNK && (Tail(s) == [] <==> |r| == 0)
            && Samples(Tail(s)) == if |r| > 0 then r + Silence(CHUNK - |r|) else []
  {
    if |Rest(s)| > 0 {
      assert Tail(s)[..0] == [];
    }
  }

  // ----- what the receive path is for: one over after another -------------------------------

  /** The streams received so far. samples holds everything decoded since the open stream began. */
  datatype Streams = Streams(done: seq<Pcm>, open: bool, samples: Pcm, fed: seq<VocoderInput>)

  function Opened(s: Streams): Streams {
    if s.open then s else s.(open := true, samples := [], fed := s.fed + [Reset])
  }

  function Closed(s: Streams): Streams {
    if s.open then s.(done := s.done + [s.samples], open := false, samples := []) else s
  }

  function HeardOne(s: Streams, decode: Decoder, frame: seq<byte>): Streams {
    var fed := s.fed + [Ambe(frame)];
    s.(samples := s.samples + decode(fed), fed := fed)
  }

  function Heard(s: Streams, decode: Decoder, frames: seq<seq<byte>>): (r: Streams)
    ensures r.open == s.open && r.done == s.done
  {
    if |frames| == 0 then s
    else HeardOne(Heard(s, decode, frames[..|frames| - 1]), decode, frames[|frames| - 1])
  }

  function OnFrame(s: Streams, decode: Decoder, f: VoiceFrame): Streams
    requires |f.payload| == PAYLOAD_LEN
  {
    var begun := if f.fi == FI_HEADER || f.fi == FI_COMM then Opened(s) else s;
    var heard := if f.fi == FI_COMM then Heard(begun, decode, Vd2.Frames(f.payload)) else begun;
    if f.fi == FI_TERM || f.eot then Closed(heard) else heard
  }

  /** What the SVX side is told about the streams. */
  function Rendered(s: Streams): seq<SvxCall> {
    Finished(s.done) + if s.open then [TalkerStart] + Full(s.samples) else []
  }

  function Over(samples: Pcm): seq<SvxCall> {
    [TalkerStart] + Full(samples) + Tail(samples) + [TalkerStop]
  }

  function Finished(done: seq<Pcm>): seq<SvxCall> {
    if |done| == 0 then [] else Finished(done[..|done| - 1]) + Over(done[|done| - 1])
  }

  lemma RenderedOpen(s: Streams)
    requires !s.open
    ensures Rendered(Opened(s)) == Rendered(s) + [TalkerStart]
  {
  }

  lemma RenderedClose(s: Streams)
    requires s.open
    ensures Rendered(Closed(s)) == Rendered(s) + Tail(s.samples) + [TalkerStop]
  {
    var t := Closed(s);
    assert t.done[..|t.done| - 1] == s.done;
  }

  // ----- talker calls are well bracketed ----------------------------------------------------

  datatype Talker = Idle | Talking | Broken

  /** Replays the calls: starts only when idle, chunks of 480 samples and stops only when talking. */
  function Replay(calls: seq<SvxCall>): Talker {
    if |calls| == 0 then Idle else Replayed(Replay(calls[..|calls| - 1]), calls[|calls| - 1])
  }

  function Replayed(t: Talker, call: SvxCall): Talker {
    match call
    case TalkerStart => if t == Idle then Talking else Broken
    case Audio(chunk) => if t == Talking && |chunk| == CHUNK then Talking else Broken
    case TalkerStop => if t == Talking then Idle else Broken
  }

  lemma {:induction false} ReplayChunks(p: seq<SvxCall>, q: seq<SvxCall>)
    requires Replay(p) == Talking && OnlyChunks(q)
    ensures Replay(p + q) == Talking
  {
    if |q| == 0 {
      assert p + q == p;
    } else {
      ReplayChunks(p, q[..|q| - 1]);
      ReplayOne(p + q[..|q| - 1], q[|q| - 1]);
      assert p + q == p + q[..|q| - 1] + [q[|q| - 1]];
    }
  }

  lemma ReplayOne(p: seq<SvxCall>, call: SvxCall)
    ensures Replay(p + [call]) == Replayed(Replay(p), call)
  {
    assert (p + [call])[..|p|] == p;
  }

  lemma {:induction false} FinishedIsIdle(done: seq<Pcm>)
    ensures Replay(Finished(done)) == Idle
  {
    hide Over;
    if |done| > 0 {
      FinishedIsIdle(done[..|done| - 1]);
      ReplayOver(Finished(done[..|done| - 1]), done[|done| - 1]);
    }
  }

  lemma ReplayOver(p: seq<SvxCall>, s: Pcm)
    requires Replay(p) == Idle
    ensures Replay(p + Over(s)) == Idle
  {
    hide Full, Tail, Replay, OnlyChunks;
    var audio := Full(s) + Tail(s);
    ReplayOne(p, TalkerStart);
    ChunksConserve(s);
    ReplayChunks(p + [TalkerStart], audio);
    ReplayOne(p + [TalkerStart] + audio, TalkerStop);
    assert p + Over(s) == p + [TalkerStart] + audio + [TalkerStop];
  }

  /** Whatever has been received, TalkerStart and TalkerStop alternate, beginning with a start, and audio goes out in
      480-sample chunks between them only. */
  lemma CallsAreBracketed(s: Streams)
    ensures Replay(Rendered(s)) == if s.open then Talking else Idle
  {
    hide Full, Tail, Finished;
    var p := Finished(s.done);
    FinishedIsIdle(s.done);
    if s.open {
      ReplayOne(p, TalkerStart);
      FullConserves(s.samples);
      ReplayChunks(p + [TalkerStart], Full(s.samples));
      assert Rendered(s) == p + [TalkerStart] + Full(s.samples);
    } else {
      assert Rendered(s) == p;
    }
  }

  // ----- the code ---------------------------------------------------------------------------

  method FillUp(s: Pcm) returns (samples: Pcm)
    requires |s| <= CHUNK
    ensures |samples| == CHUNK && samples[..CHUNK] == s + Silence(CHUNK - |s|)
  {
    samples := s;
    while |samples| < CHUNK
      invariant |samples| <= CHUNK
      invariant samples == s + Silence(|samples| - |s|)
    {
      samples := samples + [0];
    }
  }

  class Receiver {
    const decode: Decoder
    var svxTalking: bool
    var ysfStreamActive: bool
    var ysfTalking: bool
    var seenFrame: bool  // ysfRxLastFrame is not the zero time
    var pcmBuffer: Pcm
    var fed: seq<VocoderInput>
    var calls: seq<SvxCall>
    ghost var streams: Streams

    ghost predicate Valid()
      reads this
    {
      && streams.open == ysfStreamActive == ysfTalking
      && streams.fed == fed
      && calls == Rendered(streams)
      && pcmBuffer == (if ysfStreamActive then Rest(streams.samples) else [])
      && |pcmBuffer| % BLOCK == 0
    }

    constructor (decode: Decoder)
      ensures Valid() && this.decode == decode
      ensures streams == Streams([], false, [], []) && calls == [] && !svxTalking && !seenFrame
    {
      this.decode := decode;
      svxTalking, ysfStreamActive, ysfTalking, seenFrame := false, false, false, false;
      pcmBuffer, fed, calls := [], [], [];
      streams := Streams([], false, [], []);
    }

    method StopYsfRxStream()
      requires Valid()
      modifies this
      ensures Valid() && streams == Closed(old(streams))
      ensures svxTalking == old(svxTalking) && seenFrame == old(seenFrame)
    {
      if !ysfStreamActive {
        return;
      }
      RenderedClose(streams);
      hide Rendered, Rest, Silence;
      ysfStreamActive := false;
      ysfTalking := false;
      if |pcmBuffer| > 0 {
        var samples := pcmBuffer;
        pcmBuffer := [];
        samples := FillUp(samples);
        calls := calls + [Audio(samples[..CHUNK])];
      }
      assert calls == Rendered(streams) + Tail(streams.samples);
      calls := calls + [TalkerStop];
      streams := Closed(streams);
    }

    /** Decodes one voice frame into the buffer, and sends a chunk when the buffer holds one. */
    method OneFrame(ambe: seq<byte>)
      requires Valid() && ysfStreamActive
      modifies this`fed, this`pcmBuffer, this`calls, this`streams
      ensures Valid() && streams == HeardOne(old(streams), decode, ambe)
    {
      fed := fed + [Ambe(ambe)];
      var pcm := decode(fed);
      FullGrows(streams.samples, pcm);
      hide Finished, Full, Rest;
      pcmBuffer := pcmBuffer + pcm;
      if |pcmBuffer| >= CHUNK {
        var samples := pcmBuffer[..CHUNK];
        pcmBuffer := pcmBuffer[CHUNK..];
        calls := calls + [Audio(samples)];
      }
      streams := HeardOne(streams, decode, ambe);
    }

    /** Starts a stream. */
    method Begin()
      requires Valid() && !ysfStreamActive
      modifies this`ysfStreamActive, this`ysfTalking, this`calls, this`fed, this`pcmBuffer, this`streams
      ensures Valid() && ysfStreamActive && streams == Opened(old(streams))
    {
      RenderedOpen(streams);
      hide Rendered;
      ysfStreamActive := true;
      ysfTalking := true;
      calls := calls + [TalkerStart];
      fed := fed + [Reset];
      pcmBuffer := [];
      streams := Opened(streams);
    }

    /** The five voice frames of a packet. */
    method Voice(payload: seq<byte>)
      requires Valid() && ysfStreamActive && |payload| == PAYLOAD_LEN
      modifies this`pcmBuffer, this`calls, this`streams, this`fed
      ensures Valid() && streams == Heard(old(streams), decode, Vd2.Frames(payload))
    {
      hide Rendered, Rest, HeardOne, Vd2.Frames;
      var ambeFrames := Vd2.ExtractVd2Ambe(payload);
      for i := 0 to |ambeFrames|
        invariant Valid() && ysfStreamActive
        invariant streams == Heard(old(streams), decode, ambeFrames[..i])
      {
        var ambe := ambeFrames[i];
        assert ambeFrames[..i + 1][..i] == ambeFrames[..i];
        OneFrame(ambe);
      }
      assert ambeFrames[..|ambeFrames|] == ambeFrames;
    }

    method VoiceCallback(frame: VoiceFrame)
      requires Valid() && |frame.payload| == PAYLOAD_LEN
      modifies this
      ensures Valid() && svxTalking == old(svxTalking)
      ensures streams == if svxTalking then old(streams) else OnFrame(old(streams), decode, frame)
      ensures seenFrame == (old(seenFrame) || !svxTalking)
    {
      hide Rendered, Closed, Heard;
      if svxTalking {
        return;
      }
      seenFrame := true;
      if !ysfStreamActive && (frame.fi == FI_HEADER || frame.fi == FI_COMM) {
        Begin();
      }
      if frame.fi == FI_COMM {
        Voice(frame.payload);
      }
      if frame.fi == FI_TERM || frame.eot {
        StopYsfRxStream();
      }
    }

    /** One tick of the watchdog; late says that the last frame is more than a second old. */
    method WatchdogTick(late: bool)
      requires Valid()
      modifies this
      ensures Valid() && svxTalking == old(svxTalking) && seenFrame == old(seenFrame)
      ensures streams == if seenFrame && late then Closed(old(streams)) else old(streams)
    {
      var stale := ysfStreamActive && seenFrame && late;
      if stale {
        StopYsfRxStream();
      }
    }
  }

  // ----- what a frame does ------------------------------------------------------------------

  /** The samples of voice frames that a decoder gets behind what it was fed before. */
  function Decodes(decode: Decoder, fed: seq<VocoderInput>, frames: seq<seq<byte>>): Pcm
    decreases |frames|
  {
    if |frames| == 0 then []
    else
      var now := fed + [Ambe(frames[0])];
      decode(now) + Decodes(decode, now, frames[1..])
  }

  function Inputs(frames: seq<seq<byte>>): seq<VocoderInput> {
    seq(|frames|, k requires 0 <= k < |frames| => Ambe(frames[k]))
  }

  lemma {:induction false} DecodesAppends(decode: Decoder, fed: seq<VocoderInput>, frames: seq<seq<byte>>, f: seq<byte>)
    ensures Decodes(decode, fed, frames + [f])
            == Decodes(decode, fed, frames) + decode(fed + Inputs(frames) + [Ambe(f)])
    decreases |frames|
  {
    if |frames| == 0 {
      assert fed + Inputs(frames) == fed;
      assert (frames + [f])[1..] == [];
    } else {
      var now := fed + [Ambe(frames[0])];
      DecodesAppends(decode, now, frames[1..], f);
      assert (frames + [f])[1..] == frames[1..] + [f];
      assert now + Inputs(frames[1..]) == fed + Inputs(frames);
    }
  }

  lemma {:induction false} HeardDecodes(s: Streams, decode: Decoder, frames: seq<seq<byte>>)
    ensures Heard(s, decode, frames)
            == s.(samples := s.samples + Decodes(decode, s.fed, frames), fed := s.fed + Inputs(frames))
    decreases |frames|
  {
    if |frames| == 0 {
      assert s.samples + [] == s.samples && s.fed + Inputs(frames) == s.fed;
    } else {
      var k := |frames| - 1;
      HeardDecodes(s, decode, frames[..k]);
      DecodesAppends(decode, s.fed, frames[..k], frames[k]);
      assert frames[..k] + [frames[k]] == frames;
      assert s.fed + Inputs(frames[..k]) + [Ambe(frames[k])] == s.fed + Inputs(frames);
    }
  }

  /** A header or voice frame opens a stream if none is open, with a reset of the vocoder and without samples. A voice
      frame adds its voice, one that carries the end bit included. A terminator, or any frame with the end bit, ends the
      open stream. A frame of the fourth kind does no more than that. */
  lemma FrameEffects(s: Streams, decode: Decoder, f: VoiceFrame)
    requires |f.payload| == 90
    ensures var t := OnFrame(s, decode, f);
            var begins := !s.open && (f.fi == 0 || f.fi == 1);
            var open := s.open || begins;
            var fed := if begins then s.fed + [Reset] else s.fed;
            var frames := if f.fi == 1 then Vd2.Frames(f.payload) else [];
            var samples := (if begins then [] else s.samples) + Decodes(decode, fed, frames);
            && t.fed == fed + Inputs(frames)
            && if open && (f.fi == 2 || f.eot) then t.done == s.done + [samples] && !t.open && t.samples == []
               else t.done == s.done && t.open == open && t.samples == samples
  {
    hide Vd2.Frames;
    var begun := if f.fi == 0 || f.fi == 1 then Opened(s) else s;
    HeardDecodes(begun, decode, if f.fi == 1 then Vd2.Frames(f.payload) else []);
    HeardDecodes(begun, decode, []);
    hide Heard;
    assert begun.samples + [] == begun.samples && begun.fed + [] == begun.fed;
  }
}
