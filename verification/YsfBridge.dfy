/** The whole YSF bridge, both ways at once (ysf_bridge/main.go:117-420): SVX talkers and audio on one side, datagrams
    and the watchdog on the other, in any order. Each callback is one step.

    OPUS decoding, filter and gain control in front of the vocoder give the samples of an SvxAudio event; a frame that
    does not decode is no event. The vocoder is an unknown function of all the 160-sample chunks it has been given. */
module YsfBridge {
  import opened Bits
  import opened Buffers
  import opened Ysfd
  import opened YsfClient
  import opened YsfReceive
  import opened YsfLink
  import Vd2

  const VOICE_SAMPLES := 800

  type Encoder = seq<Pcm> -> YsfClient.Ambe

  datatype Settings = Settings(svxTG: nat, svxCallsign: seq<byte>, callsign: seq<byte>, dgid: byte, decode: Decoder,
                               encode: Encoder)

  datatype Event =
    | Datagram(data: seq<byte>)
    | Tick(late: bool)
    | SvxTalkerStart(tg: nat, cs: seq<byte>)
    | SvxTalkerStop(tg: nat, cs: seq<byte>)
    | SvxAudio(pcm: Pcm)

  /** The sending side: datagrams sent, packet counters, samples not sent yet, and all that the vocoder was given. */
  datatype Tx = Tx(wire: seq<seq<byte>>, counter: byte, fn: byte, pending: Pcm, fed: seq<Pcm>)

  datatype State = State(streams: Streams, svxTalking: bool, seenFrame: bool, tx: Tx)

  const IDLE := State(Streams([], false, [], []), false, false, Tx([], 0, 0, [], []))

  // ----- one step ---------------------------------------------------------------------------

  /** Another talker on the bridge's talkgroup. */
  predicate Ours(c: Settings, tg: nat, cs: seq<byte>) {
    tg == c.svxTG && !EqualFold(cs, c.svxCallsign)
  }

  function Chunks(s: Pcm): (r: seq<Pcm>)
    ensures |r| == |s| / BLOCK
  {
    seq(|s| / BLOCK, k requires 0 <= k < |s| / BLOCK => s[BLOCK * k..BLOCK * (k + 1)])
  }

  /** The five frames of one packet, made one after the other. */
  function BlockVoice(encode: Encoder, fed: seq<Pcm>, block: Pcm): Voice
    requires |block| == VOICE_SAMPLES
  {
    var c := Chunks(block);
    [encode(fed + c[..1]), encode(fed + c[..2]), encode(fed + c[..3]), encode(fed + c[..4]), encode(fed + c[..5])]
  }

  function Sent(c: Settings, tx: Tx, block: Pcm, rest: Pcm): Tx
    requires |block| == VOICE_SAMPLES
  {
    Tx(tx.wire + [Comm(c.callsign, c.dgid, tx.counter, tx.fn, BlockVoice(c.encode, tx.fed, block))],
       NextCounter(tx.counter), NextFn(tx.fn), rest, tx.fed + Chunks(block))
  }

  /** The loop of the audio callback: packets go out while there are samples for one. */
  function Drained(c: Settings, tx: Tx): Tx
    decreases |tx.pending|
  {
    if |tx.pending| < VOICE_SAMPLES then tx
    else Drained(c, Sent(c, tx, tx.pending[..VOICE_SAMPLES], tx.pending[VOICE_SAMPLES..]))
  }

  function Begun(c: Settings, tx: Tx): Tx {
    Tx(tx.wire + [Header(c.callsign, c.dgid)], 1, 0, [], tx.fed)
  }

  /** What is left over goes out padded with zeros, then the terminator. */
  function Ended(c: Settings, tx: Tx): Tx
    requires |tx.pending| < VOICE_SAMPLES
  {
    var t := if |tx.pending| == 0 then tx else Sent(c, tx, tx.pending + Silence(VOICE_SAMPLES - |tx.pending|), []);
    t.(wire := t.wire + [Term(c.callsign, c.dgid, t.counter)], counter := NextCounter(t.counter))
  }

  predicate Shaped(b: State) { |b.tx.pending| < VOICE_SAMPLES }

  lemma {:induction false} DrainedIsShort(c: Settings, tx: Tx)
    ensures |Drained(c, tx).pending| < VOICE_SAMPLES
    decreases |tx.pending|
  {
    hide Sent;
    if |tx.pending| >= VOICE_SAMPLES {
      SentLeaves(c, tx, tx.pending[..VOICE_SAMPLES], tx.pending[VOICE_SAMPLES..]);
      DrainedIsShort(c, Sent(c, tx, tx.pending[..VOICE_SAMPLES], tx.pending[VOICE_SAMPLES..]));
    }
  }

  lemma SentLeaves(c: Settings, tx: Tx, block: Pcm, rest: Pcm)
    requires |block| == VOICE_SAMPLES
    ensures Sent(c, tx, block, rest).pending == rest
  {
  }

  function Step(c: Settings, b: State, e: Event): (r: State)
    requires Shaped(b)
    ensures Shaped(r)
  {
    match e
    case Datagram(data) =>
      if b.svxTalking then b
      else b.(streams := ReceiveOne(b.streams, c.decode, c.callsign, data),
              seenFrame := b.seenFrame || Forwarded(c.callsign, data).Deliver?)
    case Tick(late) => if b.seenFrame && late then b.(streams := Closed(b.streams)) else b
    case SvxTalkerStart(tg, cs) => if Ours(c, tg, cs) then b.(svxTalking := true, tx := Begun(c, b.tx)) else b
    case SvxTalkerStop(tg, cs) => if Ours(c, tg, cs) then b.(svxTalking := false, tx := Ended(c, b.tx)) else b
    case SvxAudio(pcm) =>
      if b.streams.open then b
      else
        var tx := b.tx.(pending := b.tx.pending + pcm);
        DrainedIsShort(c, tx);
        b.(tx := Drained(c, tx))
  }

  function Run(c: Settings, b: State, events: seq<Event>): (r: State)
    requires Shaped(b)
    ensures Shaped(r)
    decreases |events|
  {
    if |events| == 0 then b else Step(c, Run(c, b, events[..|events| - 1]), events[|events| - 1])
  }

  // ----- the code ---------------------------------------------------------------------------

  class Bridge {
    const settings: Settings
    const rx: Receiver
    const ysf: Client
    var ambeBuffer: Pcm
    var fed: seq<Pcm>

    ghost function Value(): State
      reads this, rx, ysf
    {
      State(rx.streams, rx.svxTalking, rx.seenFrame, Tx(ysf.wire, ysf.txCounter, ysf.txFN, ambeBuffer, fed))
    }

    ghost predicate Valid()
      reads this, rx, ysf
    {
      && rx.Valid() && Shaped(Value())
      && rx.decode == settings.decode && ysf.callsign == settings.callsign && ysf.dgid == settings.dgid
    }

    constructor (settings: Settings)
      ensures Valid() && fresh(rx) && fresh(ysf) && this.settings == settings
      ensures Value() == IDLE
    {
      this.settings := settings;
      rx := new Receiver(settings.decode);
      ysf := new Client(settings.callsign, settings.dgid);
      ambeBuffer, fed := [], [];
    }

    method OnTalkerStart(tg: nat, cs: seq<byte>)
      requires Valid()
      modifies this, rx, ysf
      ensures Valid() && Value() == Step(settings, old(Value()), SvxTalkerStart(tg, cs))
    {
      hide EqualFold, Header, Rendered, Rest;
      if tg != settings.svxTG || EqualFold(cs, settings.svxCallsign) {
        return;
      }
      rx.svxTalking := true;
      ambeBuffer := [];
      ysf.StartTX();
    }

    /** The five vocoder calls for one packet. */
    method EncodeVoice(block: Pcm) returns (voice: Voice)
      requires |block| == VOICE_SAMPLES
      modifies `fed
      ensures voice == BlockVoice(settings.encode, old(fed), block) && fed == old(fed) + Chunks(block)
    {
      ghost var c := Chunks(block);
      var frames: seq<YsfClient.Ambe> := [];
      for i := 0 to 5
        invariant |frames| == i && fed == old(fed) + c[..i]
        invariant forall k :: 0 <= k < i ==> frames[k] == settings.encode(old(fed) + c[..k + 1])
      {
        var chunk := block[i * BLOCK..(i + 1) * BLOCK];
        assert old(fed) + c[..i] + [chunk] == old(fed) + c[..i + 1];
        fed := fed + [chunk];
        frames := frames + [settings.encode(fed)];
      }
      voice := frames;
      assert c[..5] == c;
    }

    method SendBlock(block: Pcm)
      requires |block| == VOICE_SAMPLES && ysf.callsign == settings.callsign && ysf.dgid == settings.dgid
      modifies `fed, ysf
      ensures Tx(ysf.wire, ysf.txCounter, ysf.txFN, ambeBuffer, fed) ==
              Sent(settings, old(Tx(ysf.wire, ysf.txCounter, ysf.txFN, ambeBuffer, fed)), block, ambeBuffer)
    {
      hide Comm, BlockVoice, Chunks;
      var voice := EncodeVoice(block);
      ysf.SendVoice(voice);
    }

    method OnAudio(pcm: Pcm)
      requires Valid()
      modifies this, rx, ysf
      ensures Valid() && Value() == Step(settings, old(Value()), SvxAudio(pcm))
    {
      hide Sent, Rendered, Rest;
      if rx.ysfTalking {
        return;
      }
      ambeBuffer := ambeBuffer + pcm;
      ghost var start := Value().tx;
      DrainedIsShort(settings, start);
      while |ambeBuffer| >= VOICE_SAMPLES
        invariant Drained(settings, Value().tx) == Drained(settings, start)
        invariant rx.Valid() && Value().streams == old(rx.streams)
        invariant Value().svxTalking == old(rx.svxTalking) && Value().seenFrame == old(rx.seenFrame)
        decreases |ambeBuffer|
      {
        ghost var tx := Value().tx;
        SendBlock(ambeBuffer[..VOICE_SAMPLES]);
        SentRest(settings, tx, tx.pending[..VOICE_SAMPLES], tx.pending, tx.pending[VOICE_SAMPLES..]);
        ambeBuffer := ambeBuffer[VOICE_SAMPLES..];
      }
    }

    method OnTalkerStop(tg: nat, cs: seq<byte>)
      requires Valid()
      modifies this, rx, ysf
      ensures Valid() && Value() == Step(settings, old(Value()), SvxTalkerStop(tg, cs))
    {
      hide EqualFold, Term, Sent, Rendered, Rest;
      if tg != settings.svxTG || EqualFold(cs, settings.svxCallsign) {
        return;
      }
      rx.svxTalking := false;
      ghost var tx := Value().tx;
      if |ambeBuffer| > 0 {
        var block := ambeBuffer;
        while |block| < VOICE_SAMPLES
          invariant |block| <= VOICE_SAMPLES && |block| >= |tx.pending|
          invariant block == tx.pending + Silence(|block| - |tx.pending|)
        {
          block := block + [0];
        }
        SendBlock(block);
        SentRest(settings, tx, block, tx.pending, []);
        ambeBuffer := [];
      }
      ysf.StopTX();
    }

    method OnDatagram(data: seq<byte>)
      requires Valid()
      modifies this, rx, ysf
      ensures Valid() && Value() == Step(settings, old(Value()), Datagram(data))
    {
      hide Forwarded, OnFrame, Rendered, Rest;
      DeliveredPayload(settings.callsign, data);
      var r := Dispatch(settings.callsign, data);
      if r.Deliver? {
        rx.VoiceCallback(r.frame);
      }
    }

    method OnTick(late: bool)
      requires Valid()
      modifies this, rx, ysf
      ensures Valid() && Value() == Step(settings, old(Value()), Tick(late))
    {
      hide Rendered, Rest, Closed;
      rx.WatchdogTick(late);
    }

    method Handle(e: Event)
      requires Valid()
      modifies this, rx, ysf
      ensures Valid() && Value() == Step(settings, old(Value()), e)
    {
      hide Step, Shaped, Rendered, Rest;
      match e
      case Datagram(data) => OnDatagram(data);
      case Tick(late) => OnTick(late);
      case SvxTalkerStart(tg, cs) => OnTalkerStart(tg, cs);
      case SvxTalkerStop(tg, cs) => OnTalkerStop(tg, cs);
      case SvxAudio(pcm) => OnAudio(pcm);
    }

    /** Frames, ticks, talkers and audio in any order. */
    method Serve(events: seq<Event>)
      requires Valid()
      modifies this, rx, ysf
      ensures Valid() && Value() == Run(settings, old(Value()), events)
    {
      hide Step, Rendered, Rest;
      for i := 0 to |events|
        invariant Valid() && Value() == Run(settings, old(Value()), events[..i])
      {
        assert events[..i + 1][..i] == events[..i];
        Handle(events[i]);
      }
      assert events[..|events|] == events;
    }
  }

  lemma SentRest(c: Settings, tx: Tx, block: Pcm, rest: Pcm, rest': Pcm)
    requires |block| == VOICE_SAMPLES
    ensures Sent(c, tx, block, rest).(pending := rest') == Sent(c, tx, block, rest')
  {
  }

  // ----- which talkers count ----------------------------------------------------------------

  lemma SameInEitherCase(s: seq<byte>, t: seq<byte>)
    ensures EqualFold(s, t) <==> |s| == |t| && forall i :: 0 <= i < |s| ==> SameLetter(s[i], t[i])
  {
    hide Fold, SameLetter;
    forall x: byte, y: byte
      ensures Fold(x) == Fold(y) <==> SameLetter(x, y)
    {
      FoldedAlike(x, y);
    }
  }

  /** A talker on another talkgroup, or with the bridge's own callsign in whatever case, is ignored. Any other sets the
      flag and sends a header when it starts, and clears the flag and ends with a terminator when it stops. */
  lemma TalkersThatCount(c: Settings, b: State, tg: nat, cs: seq<byte>)
    requires Shaped(b)
    ensures var own := |cs| == |c.svxCallsign| && forall i :: 0 <= i < |cs| ==> SameLetter(cs[i], c.svxCallsign[i]);
            var r, t := Step(c, b, SvxTalkerStart(tg, cs)), Step(c, b, SvxTalkerStop(tg, cs));
            if tg == c.svxTG && !own then
              && r.svxTalking && r.tx.pending == [] && r.tx.wire == b.tx.wire + [Header(c.callsign, c.dgid)]
              && !t.svxTalking && t.tx.pending == []
              && |t.tx.wire| == |b.tx.wire| + (if b.tx.pending == [] then 1 else 2)
              && exists n: byte :: t.tx.wire[|t.tx.wire| - 1] == Term(c.callsign, c.dgid, n)
            else r == b && t == b
  {
    SameInEitherCase(cs, c.svxCallsign);
    hide EqualFold, SameLetter, Header, Comm, Term, BlockVoice, Chunks;
  }

  // ----- from an SVX talker to the YSF side -------------------------------------------------

  /** The voice of the first n packets of a talker's samples. */
  function Voices(encode: Encoder, fed: seq<Pcm>, s: Pcm, n: nat): (v: seq<Voice>)
    requires VOICE_SAMPLES * n <= |s|
    ensures |v| == n
  {
    if n == 0 then []
    else
      var k := VOICE_SAMPLES * (n - 1);
      Voices(encode, fed, s, n - 1) + [BlockVoice(encode, fed + Chunks(s[..k]), s[k..k + VOICE_SAMPLES])]
  }

  /** The samples with zeros up to a whole number of packets. */
  function PadVoice(s: Pcm): (r: Pcm)
    ensures |r| % VOICE_SAMPLES == 0 && |s| <= |r| < |s| + VOICE_SAMPLES
  {
    var odd := |s| % VOICE_SAMPLES;
    if odd == 0 then s else s + Silence(VOICE_SAMPLES - odd)
  }

  function OverVoice(c: Settings, fed: seq<Pcm>, s: Pcm): seq<Voice> {
    Voices(c.encode, fed, PadVoice(s), |PadVoice(s)| / VOICE_SAMPLES)
  }

  /** Since the talker began, s has come in and n packets have gone out. */
  ghost predicate Underway(c: Settings, tx: Tx, wire: seq<seq<byte>>, fed: seq<Pcm>, s: Pcm, n: nat) {
    && VOICE_SAMPLES * n <= |s|
    && tx.wire == wire + [Header(c.callsign, c.dgid)] + Comms(c.callsign, c.dgid, Voices(c.encode, fed, s, n))
    && tx.counter == CounterAt(n) && tx.fn == FnAt(n)
    && tx.pending == s[VOICE_SAMPLES * n..] && tx.fed == fed + Chunks(s[..VOICE_SAMPLES * n])
  }

  lemma SliceOfSlice(s: Pcm, lo: nat, hi: nat, i: nat, j: nat)
    requires lo <= hi <= |s| && i <= j <= hi - lo
    ensures s[lo..hi][i..j] == s[lo + i..lo + j]
  {
    assert forall k :: 0 <= k < j - i ==> s[lo..hi][i..j][k] == s[lo + i..lo + j][k];
  }

  /** The chunks of a part that starts at a chunk border are chunks of the whole. */
  lemma ChunkOfPart(s: Pcm, first: nat, hi: nat, m: nat)
    requires BLOCK * (first + m + 1) <= hi <= |s|
    ensures var part := s[BLOCK * first..hi];
            |Chunks(part)| == (hi - BLOCK * first) / BLOCK && m < |Chunks(part)|
            && Chunks(part)[m] == s[BLOCK * (first + m)..BLOCK * (first + m + 1)]
  {
    SliceOfSlice(s, BLOCK * first, hi, BLOCK * m, BLOCK * (m + 1));
  }

  lemma ChunksGrow(s: Pcm, n: nat)
    requires VOICE_SAMPLES * (n + 1) <= |s|
    ensures var k := VOICE_SAMPLES * n;
            Chunks(s[..k + VOICE_SAMPLES]) == Chunks(s[..k]) + Chunks(s[k..k + VOICE_SAMPLES])
  {
    var k := VOICE_SAMPLES * n;
    var all, head, tail := s[..k + VOICE_SAMPLES], s[..k], s[k..k + VOICE_SAMPLES];
    assert |Chunks(all)| == 5 * n + 5 && |Chunks(head)| == 5 * n && |Chunks(tail)| == 5;
    hide Chunks;
    assert k == BLOCK * (5 * n);
    forall i | 0 <= i < 5 * n + 5
      ensures Chunks(all)[i] == (Chunks(head) + Chunks(tail))[i]
    {
      ChunkOfPart(s, 0, k + VOICE_SAMPLES, i);
      if i >= 5 * n {
        ChunkOfPart(s, 5 * n, k + VOICE_SAMPLES, i - 5 * n);
      } else {
        ChunkOfPart(s, 0, k, i);
      }
    }
  }

  lemma CommsSnoc(c: Settings, v: seq<Voice>, x: Voice)
    ensures Comms(c.callsign, c.dgid, v + [x])
            == Comms(c.callsign, c.dgid, v) + [Comm(c.callsign, c.dgid, CounterAt(|v|), FnAt(|v|), x)]
  {
    hide Comm, CounterAt, FnAt;
    assert (v + [x])[..|v|] == v;
  }

  lemma CountersTick(n: nat)
    ensures CounterAt(n + 1) == NextCounter(CounterAt(n)) && FnAt(n + 1) == NextFn(FnAt(n))
  {
    hide NextCounter, NextFn;
  }

  lemma OneMorePacket(c: Settings, tx: Tx, wire: seq<seq<byte>>, fed: seq<Pcm>, s: Pcm, n: nat, rest: Pcm)
    requires Underway(c, tx, wire, fed, s, n) && VOICE_SAMPLES * (n + 1) <= |s|
    requires rest == s[VOICE_SAMPLES * (n + 1)..]
    ensures |tx.pending| >= VOICE_SAMPLES
    ensures Underway(c, Sent(c, tx, tx.pending[..VOICE_SAMPLES], rest), wire, fed, s, n + 1)
  {
    hide Header, Comm, Comms, CounterAt, FnAt, NextCounter, NextFn, BlockVoice, Chunks;
    var k := VOICE_SAMPLES * n;
    assert tx.pending[..VOICE_SAMPLES] == s[k..k + VOICE_SAMPLES];
    var v, x := Voices(c.encode, fed, s, n), BlockVoice(c.encode, fed + Chunks(s[..k]), s[k..k + VOICE_SAMPLES]);
    assert Voices(c.encode, fed, s, n + 1) == v + [x];
    CommsSnoc(c, v, x);
    CountersTick(n);
    ChunksGrow(s, n);
  }

  lemma {:induction false} DrainSends(c: Settings, tx: Tx, wire: seq<seq<byte>>, fed: seq<Pcm>, s: Pcm, n: nat)
    requires Underway(c, tx, wire, fed, s, n)
    ensures Underway(c, Drained(c, tx), wire, fed, s, |s| / VOICE_SAMPLES)
    decreases |s| - VOICE_SAMPLES * n
  {
    hide Underway, Sent;
    PendingIs(c, tx, wire, fed, s, n);
    if |tx.pending| < VOICE_SAMPLES {
      WholePackets(|s|, n);
    } else {
      var next := Sent(c, tx, tx.pending[..VOICE_SAMPLES], tx.pending[VOICE_SAMPLES..]);
      assert tx.pending[VOICE_SAMPLES..] == s[VOICE_SAMPLES * (n + 1)..];
      OneMorePacket(c, tx, wire, fed, s, n, tx.pending[VOICE_SAMPLES..]);
      DrainSends(c, next, wire, fed, s, n + 1);
    }
  }

  lemma WholePackets(len: nat, n: nat)
    requires VOICE_SAMPLES * n <= len < VOICE_SAMPLES * (n + 1)
    ensures len / VOICE_SAMPLES == n
  {
  }

  lemma PendingIs(c: Settings, tx: Tx, wire: seq<seq<byte>>, fed: seq<Pcm>, s: Pcm, n: nat)
    requires Underway(c, tx, wire, fed, s, n)
    ensures VOICE_SAMPLES * n <= |s| && tx.pending == s[VOICE_SAMPLES * n..]
  {
  }

  lemma VoicesLookBack(encode: Encoder, fed: seq<Pcm>, s: Pcm, more: Pcm, n: nat)
    requires VOICE_SAMPLES * n <= |s|
    ensures Voices(encode, fed, s + more, n) == Voices(encode, fed, s, n)
  {
    hide BlockVoice, Chunks;
    if n > 0 {
      var k := VOICE_SAMPLES * (n - 1);
      VoicesLookBack(encode, fed, s, more, n - 1);
      assert (s + more)[..k] == s[..k] && (s + more)[k..k + VOICE_SAMPLES] == s[k..k + VOICE_SAMPLES];
    }
  }

  lemma MoreSamples(c: Settings, tx: Tx, wire: seq<seq<byte>>, fed: seq<Pcm>, s: Pcm, n: nat, more: Pcm)
    requires Underway(c, tx, wire, fed, s, n)
    ensures Underway(c, tx.(pending := tx.pending + more), wire, fed, s + more, n)
  {
    hide Header, Comms, Chunks, CounterAt, FnAt;
    VoicesLookBack(c.encode, fed, s, more, n);
    var k := VOICE_SAMPLES * n;
    assert (s + more)[..k] == s[..k] && (s + more)[k..] == s[k..] + more;
  }

  /** Neither starts nor stops the talker. */
  predicate Meanwhile(c: Settings, e: Event) {
    match e
    case SvxTalkerStart(tg, cs) => !Ours(c, tg, cs)
    case SvxTalkerStop(tg, cs) => !Ours(c, tg, cs)
    case _ => true
  }

  function AudioOf(events: seq<Event>): Pcm {
    if |events| == 0 then []
    else
      var e := events[|events| - 1];
      AudioOf(events[..|events| - 1]) + if e.SvxAudio? then e.pcm else []
  }

  lemma {:induction false} AudioOfBoth(p: seq<Event>, q: seq<Event>)
    ensures AudioOf(p + q) == AudioOf(p) + AudioOf(q)
    decreases |q|
  {
    if |q| == 0 {
      assert p + q == p;
    } else {
      AudioOfBoth(p, q[..|q| - 1]);
      assert (p + q)[..|p + q| - 1] == p + q[..|q| - 1];
    }
  }

  /** A watchdog tick that finds the last frame more than a second old. */
  predicate Late(e: Event) { e.Tick? && e.late }

  predicate HasLate(events: seq<Event>) { exists i :: 0 <= i < |events| && Late(events[i]) }

  /** The events before the first late tick, and those after it. */
  function UntilLate(events: seq<Event>): seq<Event> {
    if |events| == 0 || Late(events[0]) then [] else [events[0]] + UntilLate(events[1..])
  }

  function AfterLate(events: seq<Event>): seq<Event> {
    if |events| == 0 then [] else if Late(events[0]) then events[1..] else AfterLate(events[1..])
  }

  /** While a talker is on nobody listens to YSF, so a stream that is open when the talker begins is only ended by the
      watchdog, and until then the talker's samples are dropped: what gets through, and what does not. */
  function Passed(b: State, during: seq<Event>): Pcm {
    AudioOf(if !b.streams.open then during else if b.seenFrame then AfterLate(during) else [])
  }

  function Dropped(b: State, during: seq<Event>): Pcm {
    AudioOf(if !b.streams.open then [] else if b.seenFrame then UntilLate(during) else during)
  }

  function StreamsAfter(b: State, during: seq<Event>): Streams {
    if b.seenFrame && HasLate(during) then Closed(b.streams) else b.streams
  }

  lemma {:induction false} LateSnoc(events: seq<Event>, e: Event)
    ensures HasLate(events + [e]) <==> HasLate(events) || Late(e)
    ensures AfterLate(events + [e]) == if HasLate(events) then AfterLate(events) + [e] else []
  {
    hide Late;
    var all := events + [e];
    assert HasLate(all) <==> HasLate(events) || Late(e) by {
      assert all[|events|] == e && forall i :: 0 <= i < |events| ==> all[i] == events[i];
    }
    if |events| == 0 {
      assert all[1..] == [];
    } else {
      LateSnoc(events[1..], e);
      assert all[1..] == events[1..] + [e];
      assert HasLate(events) <==> Late(events[0]) || HasLate(events[1..]) by {
        assert forall i :: 0 < i < |events| ==> events[i] == events[1..][i - 1];
      }
    }
  }

  lemma AudioSnoc(events: seq<Event>, e: Event)
    ensures AudioOf(events + [e]) == AudioOf(events) + if e.SvxAudio? then e.pcm else []
  {
    assert (events + [e])[..|events|] == events;
  }

  /** An event adds its samples if no stream is open then. */
  lemma PassedSnoc(b: State, during: seq<Event>, e: Event)
    ensures Passed(b, during + [e])
            == Passed(b, during) + if e.SvxAudio? && !StreamsAfter(b, during).open then e.pcm else []
    ensures StreamsAfter(b, during + [e]) == if b.seenFrame && Late(e) then Closed(StreamsAfter(b, during))
                                             else StreamsAfter(b, during)
  {
    hide HasLate, AfterLate, AudioOf;
    LateSnoc(during, e);
    AudioSnoc(during, e);
    AudioSnoc(AfterLate(during), e);
    NoAudio();
    NothingAfter(during);
  }

  lemma NoAudio()
    ensures AudioOf([]) == []
  {
  }

  lemma {:induction false} NothingAfter(events: seq<Event>)
    ensures !HasLate(events) ==> AfterLate(events) == [] && UntilLate(events) == events
  {
    hide Late;
    if |events| > 0 {
      NothingAfter(events[1..]);
      assert HasLate(events) <==> Late(events[0]) || HasLate(events[1..]) by {
        assert forall i :: 0 < i < |events| ==> events[i] == events[1..][i - 1];
      }
    }
  }

  lemma {:induction false} LateSplits(events: seq<Event>)
    ensures AudioOf(events) == AudioOf(UntilLate(events)) + AudioOf(AfterLate(events))
  {
    hide AudioOf;
    NoAudio();
    if |events| > 0 {
      var e := events[0];
      assert events == [e] + events[1..] && [] + [e] == [e];
      AudioOfBoth([e], events[1..]);
      AudioSnoc([], e);
      if !Late(e) {
        LateSplits(events[1..]);
        AudioOfBoth([e], UntilLate(events[1..]));
      }
    }
  }

  /** What is dropped comes before what passes, nothing else is missing, and all samples pass if and only if no stream
      is open when the talker begins or none arrive before the watchdog has ended it. */
  lemma SamplesAreSplit(b: State, during: seq<Event>)
    ensures AudioOf(during) == Dropped(b, during) + Passed(b, during)
    ensures Passed(b, during) == AudioOf(during) <==>
            !b.streams.open || AudioOf(if b.seenFrame then UntilLate(during) else during) == []
  {
    hide AudioOf, UntilLate, AfterLate;
    NoAudio();
    LateSplits(during);
    assert |AudioOf(during)| == |Dropped(b, during)| + |Passed(b, during)|;
  }

  /** An SVX talker is on since b0, and during has happened meanwhile. */
  ghost predicate Talking(c: Settings, b0: State, b: State, during: seq<Event>) {
    && b.svxTalking && b.seenFrame == b0.seenFrame && b.streams == StreamsAfter(b0, during)
    && var s := Passed(b0, during);
    Underway(c, b.tx, b0.tx.wire, b0.tx.fed, s, |s| / VOICE_SAMPLES)
  }

  lemma TalkingStep(c: Settings, b0: State, b: State, during: seq<Event>, e: Event)
    requires Shaped(b) && Talking(c, b0, b, during) && Meanwhile(c, e)
    ensures Talking(c, b0, Step(c, b, e), during + [e])
  {
    hide Underway, Ours, Drained, Begun, Ended, Passed, StreamsAfter, Closed;
    PassedSnoc(b0, during, e);
    var s := Passed(b0, during);
    if e.SvxAudio? && !b.streams.open {
      var n := |s| / VOICE_SAMPLES;
      MoreSamples(c, b.tx, b0.tx.wire, b0.tx.fed, s, n, e.pcm);
      DrainSends(c, b.tx.(pending := b.tx.pending + e.pcm), b0.tx.wire, b0.tx.fed, s + e.pcm, n);
    } else {
      assert s + [] == s;
    }
  }

  lemma {:induction false} TalkingOn(c: Settings, b0: State, b: State, during: seq<Event>)
    requires Shaped(b) && Talking(c, b0, b, [])
    requires forall i :: 0 <= i < |during| ==> Meanwhile(c, during[i])
    ensures Talking(c, b0, Run(c, b, during), during)
    decreases |during|
  {
    hide Talking, Step, Meanwhile, Shaped;
    if |during| > 0 {
      var k := |during| - 1;
      TalkingOn(c, b0, b, during[..k]);
      TalkingStep(c, b0, Run(c, b, during[..k]), during[..k], during[k]);
      assert during[..k] + [during[k]] == during;
    }
  }

  lemma StartTalks(c: Settings, b: State, tg: nat, cs: seq<byte>)
    requires Shaped(b) && Ours(c, tg, cs)
    ensures Talking(c, b, Step(c, b, SvxTalkerStart(tg, cs)), [])
  {
    hide Ours, Header;
    assert Chunks([]) == [] && b.tx.fed + [] == b.tx.fed;
    assert Passed(b, []) == [];
  }

  lemma EndSends(c: Settings, tx: Tx, wire: seq<seq<byte>>, fed: seq<Pcm>, s: Pcm)
    requires Underway(c, tx, wire, fed, s, |s| / VOICE_SAMPLES)
    ensures |tx.pending| < VOICE_SAMPLES
    ensures Ended(c, tx).wire == wire + Transmission(c.callsign, c.dgid, OverVoice(c, fed, s))
  {
    hide Underway, Sent, Transmission, OverVoice, Term, CounterAt, NextCounter;
    var n := |s| / VOICE_SAMPLES;
    var p := PadVoice(s);
    PendingIs(c, tx, wire, fed, s, n);
    if |tx.pending| == 0 {
      assert p == s;
      Terminates(c, tx, wire, fed, s, p);
    } else {
      var zeros := Silence(VOICE_SAMPLES - |tx.pending|);
      assert p == s + zeros;
      MoreSamples(c, tx, wire, fed, s, n, zeros);
      var u := tx.(pending := tx.pending + zeros);
      assert p[VOICE_SAMPLES * (n + 1)..] == [];
      OneMorePacket(c, u, wire, fed, p, n, []);
      assert u.pending[..VOICE_SAMPLES] == u.pending;
      SentLooksNotAtPending(c, tx, u, u.pending);
      Terminates(c, Sent(c, tx, u.pending, []), wire, fed, s, p);
    }
  }

  lemma Terminates(c: Settings, t: Tx, wire: seq<seq<byte>>, fed: seq<Pcm>, s: Pcm, p: Pcm)
    requires p == PadVoice(s) && Underway(c, t, wire, fed, p, |p| / VOICE_SAMPLES)
    ensures t.wire + [Term(c.callsign, c.dgid, t.counter)]
            == wire + Transmission(c.callsign, c.dgid, OverVoice(c, fed, s))
  {
    hide Header, Comms, Term, CounterAt, FnAt, Voices, Chunks;
  }

  lemma SentLooksNotAtPending(c: Settings, t: Tx, u: Tx, block: Pcm)
    requires |block| == VOICE_SAMPLES && u == t.(pending := u.pending)
    ensures Sent(c, t, block, []) == Sent(c, u, block, [])
  {
  }

  /** Whatever else happens in between, and whatever goes on when the talker begins: the samples that pass go out as one
      transmission, in order and with zeros only behind the last, and the YSF side is not listened to; a stream that was
      open is left as it was, or ended by the watchdog. */
  lemma TalkerIsSent(c: Settings, b: State, start: Event, during: seq<Event>, stop: Event)
    requires Shaped(b)
    requires start.SvxTalkerStart? && Ours(c, start.tg, start.cs) && stop.SvxTalkerStop? && Ours(c, stop.tg, stop.cs)
    requires forall i :: 0 <= i < |during| ==> Meanwhile(c, during[i])
    ensures var r := Run(c, b, [start] + during + [stop]);
            && r.tx.wire == b.tx.wire + Transmission(c.callsign, c.dgid, OverVoice(c, b.tx.fed, Passed(b, during)))
            && r.streams == StreamsAfter(b, during) && !r.svxTalking && r.seenFrame == b.seenFrame
  {
    hide Shaped, Meanwhile, Transmission, OverVoice, Ours, Passed, StreamsAfter, Talking, Run, Step;
    var b1 := Step(c, b, start);
    StartTalks(c, b, start.tg, start.cs);
    TalkingOn(c, b, b1, during);
    TalkingEnds(c, b, Run(c, b1, during), during, stop);
    RunAround(c, b, start, during, stop);
  }

  lemma TalkingEnds(c: Settings, b0: State, b: State, during: seq<Event>, stop: Event)
    requires Shaped(b) && Talking(c, b0, b, during) && stop.SvxTalkerStop? && Ours(c, stop.tg, stop.cs)
    ensures var r := Step(c, b, stop);
            && r.tx.wire == b0.tx.wire + Transmission(c.callsign, c.dgid, OverVoice(c, b0.tx.fed, Passed(b0, during)))
            && r.streams == StreamsAfter(b0, during) && !r.svxTalking && r.seenFrame == b0.seenFrame
  {
    hide Transmission, OverVoice, Ours, Passed, StreamsAfter, Ended, Underway;
    EndSends(c, b.tx, b0.tx.wire, b0.tx.fed, Passed(b0, during));
  }

  lemma RunAround(c: Settings, b: State, start: Event, during: seq<Event>, stop: Event)
    requires Shaped(b)
    ensures Run(c, b, [start] + during + [stop]) == Step(c, Run(c, Step(c, b, start), during), stop)
  {
    hide Shaped, Step;
    RunSplits(c, b, [start], during);
    RunOne(c, b, start);
    var all := [start] + during + [stop];
    assert all[..|all| - 1] == [start] + during;
  }

  /** Where no stream can be open without a frame that opened it, only the ticks count. */
  lemma {:induction false} OpenWasHeard(c: Settings, events: seq<Event>)
    ensures var b := Run(c, IDLE, events); b.streams.open ==> b.seenFrame
    decreases |events|
  {
    hide Forwarded, OnFrame, Ours, Drained, Ended, Begun;
    if |events| > 0 {
      OpenWasHeard(c, events[..|events| - 1]);
    }
  }

  /** An over that begins while a stream is open and ends before the watchdog has noticed is lost whole: header and
      terminator go out, and no voice. */
  lemma TalkerIsLost(c: Settings, b: State, start: Event, during: seq<Event>, stop: Event)
    requires Shaped(b) && b.streams.open && !HasLate(during)
    requires start.SvxTalkerStart? && Ours(c, start.tg, start.cs) && stop.SvxTalkerStop? && Ours(c, stop.tg, stop.cs)
    requires forall i :: 0 <= i < |during| ==> Meanwhile(c, during[i])
    ensures var r := Run(c, b, [start] + during + [stop]);
            && r.tx.wire == b.tx.wire + Transmission(c.callsign, c.dgid, [])
            && r.streams == b.streams && Dropped(b, during) == AudioOf(during)
  {
    hide Shaped, Meanwhile, Transmission, Ours, HasLate, AfterLate, Run;
    TalkerIsSent(c, b, start, during, stop);
    NothingAfter(during);
    NoAudio();
    NoVoice(c, b.tx.fed);
  }

  lemma NoVoice(c: Settings, fed: seq<Pcm>)
    ensures OverVoice(c, fed, []) == []
  {
  }

  /** Such an over, from the start: another gateway has sent a header, an SVX talker begins at once and says pcm, of
      which nothing goes out, however much it is. */
  lemma CollisionLosesTheOver(c: Settings, sender: seq<byte>, dgid: byte, start: Event, pcm: Pcm, stop: Event)
    requires !Own(c.callsign, Padded(sender, CALLSIGN_LEN))
    requires start.SvxTalkerStart? && Ours(c, start.tg, start.cs) && stop.SvxTalkerStop? && Ours(c, stop.tg, stop.cs)
    ensures var r := Run(c, IDLE, [Datagram(YsfClient.Header(sender, dgid))] + ([start] + [SvxAudio(pcm)] + [stop]));
            r.tx.wire == Transmission(c.callsign, c.dgid, []) && r.streams.open
  {
    hide Transmission, Ours, Own, Padded, Header, Run;
    var hail := Datagram(YsfClient.Header(sender, dgid));
    var b := Step(c, IDLE, hail);
    ReceiveHeader(IDLE.streams, c.decode, c.callsign, sender, dgid);
    RunOne(c, IDLE, hail);
    RunSplits(c, IDLE, [hail], [start] + [SvxAudio(pcm)] + [stop]);
    TalkerIsLost(c, b, start, [SvxAudio(pcm)], stop);
  }

  lemma RunOne(c: Settings, b: State, e: Event)
    requires Shaped(b)
    ensures Run(c, b, [e]) == Step(c, b, e)
  {
    hide Step, Shaped;
    assert [e][..0] == [];
  }

  lemma {:induction false} RunSplits(c: Settings, b: State, p: seq<Event>, q: seq<Event>)
    requires Shaped(b)
    ensures Run(c, b, p + q) == Run(c, Run(c, b, p), q)
    decreases |q|
  {
    hide Step, Shaped;
    if |q| == 0 {
      assert p + q == p;
    } else {
      RunSplits(c, b, p, q[..|q| - 1]);
      assert (p + q)[..|p + q| - 1] == p + q[..|q| - 1];
    }
  }

  /** Chunk k is the k-th 160 samples, and the padding is zeros behind the last sample. */
  lemma ChunksAreTheSamples(s: Pcm, k: nat)
    requires k < |PadVoice(s)| / 160
    ensures Chunks(PadVoice(s))[k] == PadVoice(s)[160 * k..160 * k + 160]
    ensures forall i :: 0 <= i < |PadVoice(s)| ==> PadVoice(s)[i] == if i < |s| then s[i] else 0
  {
    assert |PadVoice(s)| == 160 * (|PadVoice(s)| / 160);
  }

  lemma {:induction false} VoicesFollowTheSamples(encode: Encoder, fed: seq<Pcm>, s: Pcm, n: nat, j: nat, i: nat)
    requires VOICE_SAMPLES * n <= |s| && j < n && i < 5
    ensures Voices(encode, fed, s, n)[j][i] == encode(fed + Chunks(s)[..5 * j + i + 1])
  {
    hide BlockVoice;
    if j < n - 1 {
      VoicesFollowTheSamples(encode, fed, s, n - 1, j, i);
    } else {
      var k := VOICE_SAMPLES * j;
      BlockVoiceAt(encode, fed + Chunks(s[..k]), s[k..k + VOICE_SAMPLES], i);
      assert fed + Chunks(s[..k]) + Chunks(s[k..k + VOICE_SAMPLES])[..i + 1] == fed + Chunks(s)[..5 * j + i + 1] by {
        ChunksOfPart(s, j, i);
      }
    }
  }

  lemma BlockVoiceAt(encode: Encoder, fed: seq<Pcm>, block: Pcm, i: nat)
    requires |block| == VOICE_SAMPLES && i < 5
    ensures BlockVoice(encode, fed, block)[i] == encode(fed + Chunks(block)[..i + 1])
  {
    hide Chunks;
  }

  lemma ChunksOfPart(s: Pcm, j: nat, i: nat)
    requires VOICE_SAMPLES * (j + 1) <= |s| && i < 5
    ensures var k := VOICE_SAMPLES * j;
            Chunks(s[..k]) + Chunks(s[k..k + VOICE_SAMPLES])[..i + 1] == Chunks(s)[..5 * j + i + 1]
  {
    var k := VOICE_SAMPLES * j;
    var head, tail := s[..k], s[k..k + VOICE_SAMPLES];
    assert |Chunks(head)| == 5 * j && |Chunks(tail)| == 5 && |Chunks(s)| >= 5 * j + 5;
    hide Chunks;
    assert k == BLOCK * (5 * j) && s[..|s|] == s;
    forall m | 0 <= m < 5 * j + i + 1
      ensures (Chunks(head) + Chunks(tail)[..i + 1])[m] == Chunks(s)[m]
    {
      ChunkOfPart(s, 0, |s|, m);
      if m < 5 * j {
        ChunkOfPart(s, 0, k, m);
      } else {
        ChunkOfPart(s, 5 * j, k + VOICE_SAMPLES, m - 5 * j);
      }
    }
  }

  // ----- a bridge and its own echo ----------------------------------------------------------

  function Arriving(wire: seq<seq<byte>>): (events: seq<Event>)
    ensures |events| == |wire|
  {
    seq(|wire|, i requires 0 <= i < |wire| => Datagram(wire[i]))
  }

  /** With no talker on, datagrams do what the reader makes of them. */
  lemma {:induction false} ArrivingIsReceived(c: Settings, b: State, wire: seq<seq<byte>>)
    requires Shaped(b) && !b.svxTalking
    ensures var r := Run(c, b, Arriving(wire));
            r.streams == Receive(b.streams, c.decode, c.callsign, wire) && !r.svxTalking && r.tx == b.tx
    decreases |wire|
  {
    hide ReceiveOne, Forwarded;
    if |wire| > 0 {
      ArrivingIsReceived(c, b, wire[..|wire| - 1]);
      assert Arriving(wire)[..|wire| - 1] == Arriving(wire[..|wire| - 1]);
    }
  }

  /** A voice packet opens a stream if none is open. */
  lemma CommOpens(s: Streams, decode: Decoder, callsign: seq<byte>, sender: seq<byte>, dgid: byte, k: nat, voice: Voice)
    requires !Own(callsign, Padded(sender, CALLSIGN_LEN))
    ensures ReceiveOne(s, decode, callsign, Comm(sender, dgid, CounterAt(k), FnAt(k), voice))
            == YsfReceive.Heard(Opened(s), decode, Masks(voice))
  {
    hide Parse, Own, Padded, Comm, YsfReceive.Heard, Num, Vd2.Frames, Masks, CounterAt, FnAt;
    var pkt := Comm(sender, dgid, CounterAt(k), FnAt(k), voice);
    CommParses(sender, dgid, k, voice);
    ParsedIsNoPoll(pkt);
  }

  /** What the voice packets from number k on make of the streams. */
  function HeardFrom(s: Streams, decode: Decoder, voice: seq<Voice>, k: nat): Streams
    requires k <= |voice|
  {
    if k == |voice| then s else Spoken(Opened(s), decode, voice[k..])
  }

  lemma SpokenOne(s: Streams, decode: Decoder, voice: Voice)
    ensures Spoken(s, decode, [voice]) == YsfReceive.Heard(s, decode, Masks(voice))
  {
    hide YsfReceive.Heard, Masks;
    assert [voice][..0] == [];
  }

  lemma {:induction false} CommsFrom(s: Streams, decode: Decoder, callsign: seq<byte>, sender: seq<byte>, dgid: byte,
                                     voice: seq<Voice>, k: nat)
    requires k <= |voice| && !Own(callsign, Padded(sender, CALLSIGN_LEN))
    ensures Receive(s, decode, callsign, Comms(sender, dgid, voice)[k..]) == HeardFrom(s, decode, voice, k)
    decreases |voice|
  {
    hide Own, Padded, Comm, ReceiveOne, YsfReceive.Heard, Masks, CounterAt, FnAt;
    var wire := Comms(sender, dgid, voice)[k..];
    if k < |voice| {
      var n := |voice| - 1;
      CommsFrom(s, decode, callsign, sender, dgid, voice[..n], k);
      assert wire[..|wire| - 1] == Comms(sender, dgid, voice[..n])[k..];
      var t := HeardFrom(s, decode, voice[..n], k);
      CommOpens(t, decode, callsign, sender, dgid, n, voice[n]);
      assert voice[k..][..n - k] == voice[..n][k..];
      if k < n {
        SpokenKeeps(Opened(s), decode, voice[..n][k..]);
      } else {
        SpokenOne(Opened(s), decode, voice[n]);
        assert voice[k..] == [voice[n]];
      }
    }
  }

  /** The streams of a bridge that hears a transmission from its j-th packet on: the voice packets among them join the
      stream that is open, or the one they open, and the terminator ends it. */
  function EchoStreams(s: Streams, decode: Decoder, voice: seq<Voice>, j: nat): Streams {
    if j > |voice| + 1 then s
    else if j == |voice| + 1 then Closed(s)
    else Closed(Spoken(Opened(s), decode, Returned(voice, j)))
  }

  /** The voice packets among packets j and on of a transmission. */
  function Returned(voice: seq<Voice>, j: nat): seq<Voice>
    requires j <= |voice| + 1
  {
    voice[if j == 0 then 0 else j - 1..]
  }

  lemma EchoIsTaken(s: Streams, decode: Decoder, callsign: seq<byte>, sender: seq<byte>, dgid: byte, voice: seq<Voice>,
                    j: nat)
    requires j <= |voice| + 2 && !Own(callsign, Padded(sender, CALLSIGN_LEN))
    ensures Receive(s, decode, callsign, Transmission(sender, dgid, voice)[j..]) == EchoStreams(s, decode, voice, j)
  {
    hide Own, Padded, Header, Comms, Term, ReceiveOne, Spoken, CounterAt;
    var wire := Transmission(sender, dgid, voice)[j..];
    if j == |voice| + 2 {
      assert wire == [];
    } else {
      var comms := Comms(sender, dgid, voice);
      var before := if j == 0 then [Header(sender, dgid)] + comms else comms[j - 1..];
      assert wire[..|wire| - 1] == before;
      if j == 0 {
        ReceiveComms(s, decode, callsign, sender, dgid, voice);
        assert voice[0..] == voice;
      } else {
        CommsFrom(s, decode, callsign, sender, dgid, voice, j - 1);
      }
      ReceiveTerm(Receive(s, decode, callsign, before), decode, callsign, sender, dgid, |voice|);
    }
  }

  /** A bridge that knows a packet for its own drops it, whichever of an over it is. */
  lemma OwnPacketIsDropped(s: Streams, decode: Decoder, callsign: seq<byte>, dgid: byte, voice: seq<Voice>, i: nat)
    requires i < |voice| + 2 && Own(callsign, Padded(callsign, CALLSIGN_LEN))
    ensures ReceiveOne(s, decode, callsign, Transmission(callsign, dgid, voice)[i]) == s
  {
    hide Parse, Own, Padded, Header, Comm, Term, Num, Masks, Vd2.Frames, CounterAt, FnAt;
    if i == 0 {
      HeaderParses(callsign, dgid);
    } else if i <= |voice| {
      CommAt(callsign, dgid, voice, i - 1);
      CommParses(callsign, dgid, i - 1, voice[i - 1]);
    } else {
      TermParses(callsign, dgid, |voice|);
    }
  }

  lemma {:induction false} OwnPacketsAreDropped(s: Streams, decode: Decoder, callsign: seq<byte>, dgid: byte,
                                                voice: seq<Voice>, j: nat, n: nat)
    requires j <= n <= |voice| + 2 && Own(callsign, Padded(callsign, CALLSIGN_LEN))
    ensures Receive(s, decode, callsign, Transmission(callsign, dgid, voice)[j..n]) == s
    decreases n
  {
    hide Own, Padded, Transmission, ReceiveOne;
    if j < n {
      var wire := Transmission(callsign, dgid, voice)[j..n];
      OwnPacketsAreDropped(s, decode, callsign, dgid, voice, j, n - 1);
      assert wire[..|wire| - 1] == Transmission(callsign, dgid, voice)[j..n - 1];
      OwnPacketIsDropped(s, decode, callsign, dgid, voice, n - 1);
    }
  }

  /** The callsign fits its field and has no blanks at its ends. */
  predicate Recognisable(callsign: seq<byte>) {
    |callsign| <= CALLSIGN_LEN && Trim(callsign) == callsign
  }

  /** A talker's over, and the reflector sends all of it back from packet j on once the talker has stopped; what comes
      back earlier is among the events meanwhile. */
  ghost predicate OverWithEcho(c: Settings, b: State, start: Event, during: seq<Event>, stop: Event,
                               voice: seq<Voice>, j: nat)
  {
    && Shaped(b)
    && start.SvxTalkerStart? && Ours(c, start.tg, start.cs) && stop.SvxTalkerStop? && Ours(c, stop.tg, stop.cs)
    && (forall i :: 0 <= i < |during| ==> Meanwhile(c, during[i]))
    && voice == OverVoice(c, b.tx.fed, Passed(b, during)) && j <= |voice| + 2
  }

  /** The bridge after the over, and after packets j and on of it have come back. */
  function AfterOver(c: Settings, b: State, start: Event, during: seq<Event>, stop: Event): (r: State)
    requires Shaped(b)
    ensures Shaped(r)
  {
    Run(c, b, [start] + during + [stop])
  }

  function AfterEcho(c: Settings, r: State, voice: seq<Voice>, j: nat): State
    requires Shaped(r) && j <= |voice| + 2
  {
    Run(c, r, Arriving(Transmission(c.callsign, c.dgid, voice)[j..]))
  }

  /** Whether packets j and on change anything: the header or a voice packet among them does, and where a stream is open
      the terminator does. Then they end exactly one stream, with their voice behind what it held. */
  lemma EchoStreamsGrow(s: Streams, decode: Decoder, voice: seq<Voice>, j: nat)
    requires j <= |voice| + 2
    ensures var t := EchoStreams(s, decode, voice, j);
            if j <= |voice| || (s.open && j <= |voice| + 1) then
              !t.open && t.done == s.done + [Spoken(Opened(s), decode, Returned(voice, j)).samples]
            else t == s
  {
    hide Spoken;
    if j <= |voice| + 1 {
      SpokenKeeps(Opened(s), decode, Returned(voice, j));
      NothingSpoken(Opened(s), decode);
      assert voice[|voice|..] == [];
    }
  }

  lemma NothingSpoken(s: Streams, decode: Decoder)
    ensures Spoken(s, decode, []) == s
  {
  }

  lemma EchoTaken(c: Settings, r: State, voice: seq<Voice>, j: nat)
    requires Shaped(r) && !r.svxTalking && j <= |voice| + 2
    ensures AfterEcho(c, r, voice, j).streams ==
            if Recognisable(c.callsign) then r.streams else EchoStreams(r.streams, c.decode, voice, j)
  {
    hide Run, Transmission, Own, Receive, Spoken, Trim, Padded, Shaped, EchoStreams, Arriving;
    var sent := Transmission(c.callsign, c.dgid, voice);
    ArrivingIsReceived(c, r, sent[j..]);
    OwnPacketsRecognised(c.callsign);
    if Recognisable(c.callsign) {
      OwnPacketsAreDropped(r.streams, c.decode, c.callsign, c.dgid, voice, j, |voice| + 2);
      assert sent[j..|voice| + 2] == sent[j..];
    } else {
      EchoIsTaken(r.streams, c.decode, c.callsign, c.callsign, c.dgid, voice, j);
    }
  }

  lemma OverGoesOut(c: Settings, b: State, start: Event, during: seq<Event>, stop: Event, voice: seq<Voice>, j: nat)
    requires OverWithEcho(c, b, start, during, stop, voice, j)
    ensures Shaped(b) && j <= |voice| + 2
    ensures var r := AfterOver(c, b, start, during, stop);
            && r.tx.wire == b.tx.wire + Transmission(c.callsign, c.dgid, voice)
            && r.streams == StreamsAfter(b, during) && !r.svxTalking
  {
    hide Run, Transmission, Shaped, Ours, Meanwhile, OverVoice, Passed, StreamsAfter;
    TalkerIsSent(c, b, start, during, stop);
  }

  /** What comes back of a bridge's own over after the talker stopped matters to it if and only if its callsign is one
      it does not recognise and the header or a voice packet is among it, or just the terminator while a foreign stream
      is still open. Then exactly one stream ends, with the returned voice behind what it held, and otherwise nothing
      changes. */
  lemma EchoIsRepeatedIff(c: Settings, b: State, start: Event, during: seq<Event>, stop: Event, voice: seq<Voice>,
                          j: nat)
    requires OverWithEcho(c, b, start, during, stop, voice, j)
    ensures Shaped(b) && j <= |voice| + 2
    ensures var s := StreamsAfter(b, during);
            var r := AfterOver(c, b, start, during, stop);
            var t := AfterEcho(c, r, voice, j);
            && r.tx.wire == b.tx.wire + Transmission(c.callsign, c.dgid, voice) && r.streams == s
            && (t.streams != s <==> !Recognisable(c.callsign) && (j <= |voice| || (s.open && j <= |voice| + 1)))
            && (t.streams != s ==> !t.streams.open && t.streams.done == s.done + [
                                     Spoken(Opened(s), c.decode, Returned(voice, j)).samples])
  {
    hide OverWithEcho, AfterOver, AfterEcho, Transmission, Recognisable, EchoStreams, Spoken, Shaped, StreamsAfter;
    hide Opened, Returned;
    OverGoesOut(c, b, start, during, stop, voice, j);
    EchoTaken(c, AfterOver(c, b, start, during, stop), voice, j);
    EchoStreamsGrow(StreamsAfter(b, during), c.decode, voice, j);
  }

  /** DB0REFLECTR. */
  const ELEVEN_LETTERS: seq<byte> := [0x44, 0x42, 0x30, 0x52, 0x45, 0x46, 0x4C, 0x45, 0x43, 0x54, 0x52]

  /** With a callsign of eleven letters, a last voice packet that comes back late is put out to SVX as an over of its
      own, or as the end of the foreign stream that is still open. */
  lemma ElevenLettersAreRepeated(c: Settings, b: State, start: Event, during: seq<Event>, stop: Event,
                                 voice: seq<Voice>)
    requires c.callsign == ELEVEN_LETTERS && |voice| > 0
    requires OverWithEcho(c, b, start, during, stop, voice, |voice|)
    ensures Shaped(b)
    ensures var s := StreamsAfter(b, during);
            var t := AfterEcho(c, AfterOver(c, b, start, during, stop), voice, |voice|);
            Rendered(t.streams) == Finished(s.done) + Over(Spoken(Opened(s), c.decode, [voice[|voice| - 1]]).samples)
  {
    hide OverWithEcho, AfterOver, AfterEcho, Transmission, Recognisable, EchoStreams, Spoken, Shaped, Over;
    hide StreamsAfter, Opened;
    assert |ELEVEN_LETTERS| == 11;
    NotRecognisable(c.callsign);
    hide ELEVEN_LETTERS;
    EchoIsRepeatedIff(c, b, start, during, stop, voice, |voice|);
    assert Returned(voice, |voice|) == [voice[|voice| - 1]];
    var s := StreamsAfter(b, during);
    var t := AfterEcho(c, AfterOver(c, b, start, during, stop), voice, |voice|).streams;
    assert t.done[..|t.done| - 1] == s.done;
  }

  lemma NotRecognisable(callsign: seq<byte>)
    requires |callsign| > CALLSIGN_LEN
    ensures !Recognisable(callsign)
  {
  }
}
