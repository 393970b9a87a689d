/** When all that a YSF bridge has sent is whole transmissions, one after the other (ysf_bridge/main.go:160-254). Audio
    and talker events are separate callbacks, so voice packets can leave with no header before them or no terminator
    after them; which events make them do so is stated exactly. */
module YsfOvers {
  import opened Bits
  import opened Buffers
  import opened Ysfd
  import opened YsfClient
  import opened YsfReceive
  import opened YsfLink
  import opened YsfBridge
  import Vd2

  /** Transmissions one after the other. */
  function Overs(c: Settings, overs: seq<seq<Voice>>): seq<seq<byte>> {
    if |overs| == 0 then []
    else Overs(c, overs[..|overs| - 1]) + Transmission(c.callsign, c.dgid, overs[|overs| - 1])
  }

  // ----- the condition on the events --------------------------------------------------------

  /** Where the events have led to: no talker is on and left samples wait, a talker is on, or it is too late. */
  datatype Order = Silent(left: nat) | Speaking | Disorder

  /** Starts and stops take turns, beginning with a start, and between a stop and the next start fewer samples than a
      packet holds get through. b is the bridge before the event; samples get through while no YSF stream is open. */
  function NextOrder(o: Order, c: Settings, b: State, e: Event): Order {
    match e
    case SvxTalkerStart(tg, cs) => if !Ours(c, tg, cs) then o else if o.Silent? then Speaking else Disorder
    case SvxTalkerStop(tg, cs) => if !Ours(c, tg, cs) then o else if o.Speaking? then Silent(0) else Disorder
    case SvxAudio(pcm) =>
      if b.streams.open || !o.Silent? then o
      else if o.left + |pcm| < VOICE_SAMPLES then Silent(o.left + |pcm|) else Disorder
    case Datagram(_) => o
    case Tick(_) => o
  }

  function OrderAfter(c: Settings, events: seq<Event>): Order
    decreases |events|
  {
    if |events| == 0 then Silent(0)
    else
      var before := events[..|events| - 1];
      NextOrder(OrderAfter(c, before), c, Run(c, IDLE, before), events[|events| - 1])
  }

  // ----- what the packets on the wire say ---------------------------------------------------

  datatype Kind = Begin | Middle | End | Foreign

  function KindOf(data: seq<byte>): Kind {
    match Parse(data)
    case NotYsfd => Foreign
    case Parsed(f) =>
      if f.fi == FI_HEADER then Begin else if f.fi == FI_COMM then Middle else if f.fi == FI_TERM then End else Foreign
  }

  datatype Air = Clear | Carrying | Garbled

  function NextAir(a: Air, k: Kind): Air {
    match k
    case Begin => if a.Clear? then Carrying else Garbled
    case Middle => if a.Carrying? then Carrying else Garbled
    case End => if a.Carrying? then Clear else Garbled
    case Foreign => Garbled
  }

  function AirAfter(wire: seq<seq<byte>>): Air {
    if |wire| == 0 then Clear else NextAir(AirAfter(wire[..|wire| - 1]), KindOf(wire[|wire| - 1]))
  }

  lemma HeaderBegins(callsign: seq<byte>, dgid: byte)
    ensures KindOf(Header(callsign, dgid)) == Begin
  {
    hide Packet, Parse, Padded;
    FieldsFit();
    PacketRoundTrip(callsign, callsign, ALL, 0, false, FI_HEADER, 0, LAST_FN, DT_VD2, dgid, EmptyPayload());
  }

  lemma CommIsMiddle(callsign: seq<byte>, dgid: byte, counter: byte, fn: byte, voice: Voice)
    ensures KindOf(Comm(callsign, dgid, counter, fn, voice)) == Middle
  {
    hide Packet, Parse, Padded, Vd2.Payload;
    FieldsFit();
    PacketRoundTrip(callsign, callsign, ALL, counter, false, FI_COMM, fn, LAST_FN, DT_VD2, dgid, Vd2.Payload(voice));
  }

  lemma TermEnds(callsign: seq<byte>, dgid: byte, counter: byte)
    ensures KindOf(Term(callsign, dgid, counter)) == End
  {
    hide Packet, Parse, Padded;
    FieldsFit();
    PacketRoundTrip(callsign, callsign, ALL, counter, true, FI_TERM, 0, LAST_FN, DT_VD2, dgid, EmptyPayload());
  }

  lemma FieldsFit()
    ensures FI_HEADER & 0x03 == FI_HEADER && FI_COMM & 0x03 == FI_COMM && FI_TERM & 0x03 == FI_TERM
  {
  }

  lemma AirSnoc(wire: seq<seq<byte>>, data: seq<byte>)
    ensures AirAfter(wire + [data]) == NextAir(AirAfter(wire), KindOf(data))
  {
    hide KindOf;
    assert (wire + [data])[..|wire|] == wire;
  }

  lemma {:induction false} GarbledStays(wire: seq<seq<byte>>, more: seq<seq<byte>>)
    requires AirAfter(wire).Garbled?
    ensures AirAfter(wire + more).Garbled?
    decreases |more|
  {
    hide KindOf;
    if |more| == 0 {
      assert wire + more == wire;
    } else {
      var k := |more| - 1;
      GarbledStays(wire, more[..k]);
      AirSnoc(wire + more[..k], more[k]);
      assert wire + more == wire + more[..k] + [more[k]];
    }
  }

  lemma {:induction false} CommsCarry(c: Settings, wire: seq<seq<byte>>, voice: seq<Voice>)
    requires AirAfter(wire).Clear?
    ensures AirAfter(wire + [Header(c.callsign, c.dgid)] + Comms(c.callsign, c.dgid, voice)).Carrying?
    decreases |voice|
  {
    hide KindOf, Header, Comm, CounterAt, FnAt;
    var head := wire + [Header(c.callsign, c.dgid)];
    if |voice| == 0 {
      HeaderBegins(c.callsign, c.dgid);
      AirSnoc(wire, Header(c.callsign, c.dgid));
      assert head + [] == head;
    } else {
      var k := |voice| - 1;
      CommsCarry(c, wire, voice[..k]);
      CommIsMiddle(c.callsign, c.dgid, CounterAt(k), FnAt(k), voice[k]);
      var before := head + Comms(c.callsign, c.dgid, voice[..k]);
      var last := Comm(c.callsign, c.dgid, CounterAt(k), FnAt(k), voice[k]);
      AirSnoc(before, last);
      assert head + Comms(c.callsign, c.dgid, voice) == before + [last];
    }
  }

  lemma {:induction false} OversAreClear(c: Settings, overs: seq<seq<Voice>>)
    ensures AirAfter(Overs(c, overs)).Clear?
    decreases |overs|
  {
    hide KindOf, Header, Comms, Term, CounterAt;
    if |overs| > 0 {
      var before, voice := Overs(c, overs[..|overs| - 1]), overs[|overs| - 1];
      OversAreClear(c, overs[..|overs| - 1]);
      CommsCarry(c, before, voice);
      TermEnds(c.callsign, c.dgid, CounterAt(|voice|));
      var most := before + [Header(c.callsign, c.dgid)] + Comms(c.callsign, c.dgid, voice);
      AirSnoc(most, Term(c.callsign, c.dgid, CounterAt(|voice|)));
      assert Overs(c, overs) == most + [Term(c.callsign, c.dgid, CounterAt(|voice|))];
    }
  }

  // ----- the run ----------------------------------------------------------------------------

  ghost predicate Whole(c: Settings, wire: seq<seq<byte>>) { exists overs :: wire == Overs(c, overs) }

  /** The transmission under way began behind whole ones and has taken s. */
  ghost predicate OnAir(c: Settings, tx: Tx, wire: seq<seq<byte>>, fed: seq<Pcm>, s: Pcm) {
    Whole(c, wire) && Underway(c, tx, wire, fed, s, |s| / VOICE_SAMPLES)
  }

  /** What each order says about the sending side. */
  ghost predicate Agrees(c: Settings, tx: Tx, o: Order) {
    match o
    case Silent(left) => |tx.pending| == left && Whole(c, tx.wire)
    case Speaking => exists wire, fed, s :: OnAir(c, tx, wire, fed, s)
    case Disorder => AirAfter(tx.wire).Garbled?
  }

  lemma WholeIsClear(c: Settings, wire: seq<seq<byte>>)
    requires Whole(c, wire)
    ensures AirAfter(wire).Clear?
  {
    var overs :| wire == Overs(c, overs);
    OversAreClear(c, overs);
  }

  lemma OneMoreOver(c: Settings, wire: seq<seq<byte>>, voice: seq<Voice>)
    requires Whole(c, wire)
    ensures Whole(c, wire + Transmission(c.callsign, c.dgid, voice))
  {
    hide Transmission;
    var overs :| wire == Overs(c, overs);
    var more := overs + [voice];
    assert more[..|more| - 1] == overs;
    assert wire + Transmission(c.callsign, c.dgid, voice) == Overs(c, more);
  }

  lemma OnAirCarries(c: Settings, tx: Tx, wire: seq<seq<byte>>, fed: seq<Pcm>, s: Pcm)
    requires OnAir(c, tx, wire, fed, s)
    ensures AirAfter(tx.wire).Carrying?
  {
    hide AirAfter, Header, Comms, Chunks, Whole;
    WholeIsClear(c, wire);
    CommsCarry(c, wire, Voices(c.encode, fed, s, |s| / VOICE_SAMPLES));
  }

  lemma {:induction false} DrainedGrows(c: Settings, tx: Tx) returns (more: seq<seq<byte>>)
    ensures Drained(c, tx).wire == tx.wire + more
    decreases |tx.pending|
  {
    hide Comm, BlockVoice, Chunks, NextCounter, NextFn;
    if |tx.pending| < VOICE_SAMPLES {
      more := [];
    } else {
      var next := Sent(c, tx, tx.pending[..VOICE_SAMPLES], tx.pending[VOICE_SAMPLES..]);
      var rest := DrainedGrows(c, next);
      more := next.wire[|tx.wire|..] + rest;
    }
  }

  lemma EndedGrows(c: Settings, tx: Tx) returns (more: seq<seq<byte>>)
    requires |tx.pending| < VOICE_SAMPLES
    ensures Ended(c, tx).wire == tx.wire + more
  {
    hide Comm, Term, BlockVoice, Chunks, NextCounter, NextFn, Silence;
    more := Ended(c, tx).wire[|tx.wire|..];
  }

  lemma GarbledKeeps(c: Settings, b: State, e: Event)
    requires Shaped(b) && AirAfter(b.tx.wire).Garbled?
    ensures AirAfter(Step(c, b, e).tx.wire).Garbled?
  {
    hide AirAfter, Drained, Ended, Header, Ours, ReceiveOne, Forwarded;
    match e
    case SvxAudio(pcm) =>
      var more := DrainedGrows(c, b.tx.(pending := b.tx.pending + pcm));
      GarbledStays(b.tx.wire, more);
    case SvxTalkerStop(_, _) =>
      var more := EndedGrows(c, b.tx);
      GarbledStays(b.tx.wire, more);
    case SvxTalkerStart(_, _) => GarbledStays(b.tx.wire, [Header(c.callsign, c.dgid)]);
    case Datagram(_) =>
    case Tick(_) =>
  }

  lemma NothingYet(c: Settings, tx: Tx)
    requires Whole(c, tx.wire)
    ensures OnAir(c, Begun(c, tx), tx.wire, tx.fed, [])
  {
    hide Header, Whole, Chunks;
    NoChunks();
    assert tx.fed + [] == tx.fed;
  }

  /** A talker who starts: a header, in order unless one is on the air already. */
  lemma StartAgrees(c: Settings, tx: Tx, o: Order)
    requires Agrees(c, tx, o) && !o.Disorder?
    ensures Agrees(c, Begun(c, tx), if o.Silent? then Speaking else Disorder)
  {
    hide AirAfter, Header, KindOf, Whole, OnAir;
    HeaderBegins(c.callsign, c.dgid);
    if o.Silent? {
      NothingYet(c, tx);
    } else {
      var wire, fed, s :| OnAir(c, tx, wire, fed, s);
      OnAirCarries(c, tx, wire, fed, s);
      AirSnoc(tx.wire, Header(c.callsign, c.dgid));
    }
  }

  lemma NoChunks()
    ensures Chunks([]) == []
  {
  }

  /** A talker who stops: the rest and a terminator, in order unless nothing is on the air. */
  lemma StopAgrees(c: Settings, tx: Tx, o: Order)
    requires Agrees(c, tx, o) && !o.Disorder? && |tx.pending| < VOICE_SAMPLES
    ensures Agrees(c, Ended(c, tx), if o.Speaking? then Silent(0) else Disorder)
  {
    hide AirAfter, KindOf, Whole, Comm, Term, Transmission, OverVoice, BlockVoice, Chunks, NextCounter, NextFn, Silence;
    hide Underway;
    if o.Speaking? {
      var wire, fed, s :| OnAir(c, tx, wire, fed, s);
      EndSends(c, tx, wire, fed, s);
      OneMoreOver(c, wire, OverVoice(c, fed, s));
    } else {
      WholeIsClear(c, tx.wire);
      if |tx.pending| == 0 {
        TermEnds(c.callsign, c.dgid, tx.counter);
        AirSnoc(tx.wire, Term(c.callsign, c.dgid, tx.counter));
      } else {
        var block := tx.pending + Silence(VOICE_SAMPLES - |tx.pending|);
        PacketGarbles(c, tx, block, []);
        var t := Sent(c, tx, block, []);
        GarbledStays(t.wire, [Term(c.callsign, c.dgid, t.counter)]);
      }
    }
  }

  lemma PacketGarbles(c: Settings, tx: Tx, block: Pcm, rest: Pcm)
    requires |block| == VOICE_SAMPLES && AirAfter(tx.wire).Clear?
    ensures AirAfter(Sent(c, tx, block, rest).wire).Garbled?
  {
    hide AirAfter, KindOf, Comm, BlockVoice, Chunks, NextCounter, NextFn;
    var voice := BlockVoice(c.encode, tx.fed, block);
    CommIsMiddle(c.callsign, c.dgid, tx.counter, tx.fn, voice);
    AirSnoc(tx.wire, Comm(c.callsign, c.dgid, tx.counter, tx.fn, voice));
  }

  /** Samples that get through: in order while a talker is on, and while none is as long as they fill no packet. */
  lemma AudioAgrees(c: Settings, tx: Tx, o: Order, pcm: Pcm)
    requires Agrees(c, tx, o) && !o.Disorder?
    ensures Agrees(c, Drained(c, tx.(pending := tx.pending + pcm)),
                   if o.Speaking? then Speaking
                   else if o.left + |pcm| < VOICE_SAMPLES then Silent(o.left + |pcm|) else Disorder)
  {
    hide AirAfter, KindOf, Whole, Underway, Sent;
    var full := tx.(pending := tx.pending + pcm);
    if o.Speaking? {
      var wire, fed, s :| OnAir(c, tx, wire, fed, s);
      MoreSamples(c, tx, wire, fed, s, |s| / VOICE_SAMPLES, pcm);
      DrainSends(c, full, wire, fed, s + pcm, |s| / VOICE_SAMPLES);
      assert OnAir(c, Drained(c, full), wire, fed, s + pcm);
    } else if |full.pending| >= VOICE_SAMPLES {
      WholeIsClear(c, tx.wire);
      PacketGarbles(c, full, full.pending[..VOICE_SAMPLES], full.pending[VOICE_SAMPLES..]);
      var next := Sent(c, full, full.pending[..VOICE_SAMPLES], full.pending[VOICE_SAMPLES..]);
      var more := DrainedGrows(c, next);
      GarbledStays(next.wire, more);
    }
  }

  lemma StepAgrees(c: Settings, b: State, o: Order, e: Event)
    requires Shaped(b) && Agrees(c, b.tx, o)
    ensures Agrees(c, Step(c, b, e).tx, NextOrder(o, c, b, e))
  {
    hide AirAfter, Whole, Underway, Drained, Ended, Ours, ReceiveOne, Forwarded, Closed;
    if o.Disorder? {
      GarbledKeeps(c, b, e);
    } else {
      hide Agrees, Begun;
      match e
      case SvxTalkerStart(_, _) => StartAgrees(c, b.tx, o);
      case SvxTalkerStop(_, _) => StopAgrees(c, b.tx, o);
      case SvxAudio(pcm) => AudioAgrees(c, b.tx, o, pcm);
      case Datagram(_) =>
      case Tick(_) =>
    }
  }

  lemma {:induction false} RunAgrees(c: Settings, events: seq<Event>)
    ensures Agrees(c, Run(c, IDLE, events).tx, OrderAfter(c, events))
    decreases |events|
  {
    hide Step, NextOrder, AirAfter;
    if |events| == 0 {
      assert Overs(c, []) == [];
    } else {
      hide Agrees;
      var before := events[..|events| - 1];
      RunAgrees(c, before);
      StepAgrees(c, Run(c, IDLE, before), OrderAfter(c, before), events[|events| - 1]);
    }
  }

  /** Over any events, what the bridge has sent is a list of whole transmissions if and only if the events were in order
      and no talker is on at the end. */
  lemma WholeTransmissionsIff(c: Settings, events: seq<Event>)
    ensures Whole(c, Run(c, IDLE, events).tx.wire) <==> OrderAfter(c, events).Silent?
  {
    hide Run, OrderAfter, AirAfter, Underway, Overs;
    var tx, o := Run(c, IDLE, events).tx, OrderAfter(c, events);
    RunAgrees(c, events);
    if Whole(c, tx.wire) {
      WholeIsClear(c, tx.wire);
    }
    if o.Speaking? {
      var wire, fed, s :| OnAir(c, tx, wire, fed, s);
      OnAirCarries(c, tx, wire, fed, s);
    }
  }
}
