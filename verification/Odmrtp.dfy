/** Call assembly in the Open DMR Terminal reader (dmr_bridge/odmrtp_client.go:166-285), from the datagrams with their
    REWIND header (dmr_bridge/odmrtp_protocol.go:85-99) to the callbacks. */
module Odmrtp {
  import opened Bits
  import opened DmrBurst
  import opened DmrPacket
  import opened DmrLink

  /** What reaches the loop: a datagram, or the moment when two seconds have passed without audio. */
  datatype Arrival = Datagram(data: seq<byte>) | Silence

  datatype Input = SuperHeader(payload: seq<byte>) | AudioFrame(payload: seq<byte>) | Terminator | Quiet | Close | Other

  const SIGN: seq<byte> := [0x52, 0x45, 0x57, 0x49, 0x4E, 0x44, 0x30, 0x31]  // "REWIND01"
  const HEADER_LEN := 18

  const AUDIO_LEN := 27

  datatype Rx = Rx(active: bool, srcID: id32, events: seq<Event>, stopped: bool)

  const START := Rx(false, 0, [], false)

  function Length(data: seq<byte>): nat
    requires |data| >= HEADER_LEN
  {
    data[16] as nat + 256 * (data[17] as nat)
  }

  /** A datagram by its type; anything that is cut short or not REWIND is Other. */
  function Classified(data: seq<byte>): Input {
    if |data| < HEADER_LEN || data[..8] != SIGN || |data| < HEADER_LEN + Length(data) then Other
    else
      var payload := data[HEADER_LEN..HEADER_LEN + Length(data)];
      if data[8] == 0x28 && data[9] == 0x09 then SuperHeader(payload)
      else if data[8] == 0x20 && data[9] == 0x09 then AudioFrame(payload)
      else if data[8] == 0x12 && data[9] == 0x09 then Terminator
      else if data[8] == 0x01 && data[9] == 0x00 then Close
      else Other
  }

  function InputOf(a: Arrival): Input {
    match a
    case Datagram(data) => Classified(data)
    case Silence => Quiet
  }

  /** The 32-bit number at an offset, least significant byte first. */
  function Number(payload: seq<byte>, at: nat): id32
    requires at + 4 <= |payload|
  {
    Word(payload[at + 3], payload[at + 2], payload[at + 1], payload[at])
  }

  /** The frames are carried as they are. */
  function Carried(payload: seq<byte>): Triple
    requires |payload| >= AUDIO_LEN
  {
    [payload[0..9], payload[9..18], payload[18..27]]
  }

  function Ended(s: Rx): Rx {
    if s.active then s.(active := false, srcID := 0, events := s.events + [CallEnd(s.srcID)]) else s
  }

  function Started(s: Rx, srcID: id32, talkgroup: id32): Rx {
    if s.active then s else s.(active := true, srcID := srcID, events := s.events + [CallStart(srcID, talkgroup)])
  }

  function Step(s: Rx, talkgroup: id32, i: Input): Rx {
    match i
    case SuperHeader(p) =>
      if |p| < 12 || Number(p, 8) != talkgroup then s
      else
        var srcID := Number(p, 4);
        Started(if srcID != s.srcID then Ended(s) else s, srcID, talkgroup)
    case AudioFrame(p) =>
      if |p| < AUDIO_LEN then s
      else
        var t := Started(s, s.srcID, talkgroup);
        t.(events := t.events + [Voice(t.srcID, Carried(p))])
    case Terminator => Ended(s)
    case Quiet => Ended(s)
    case Close => s.(stopped := true)
    case Other => s
  }

  /** The reader after all arrivals, up to the first close from the server. */
  function Run(talkgroup: id32, arrivals: seq<Arrival>): Rx {
    if |arrivals| == 0 then START
    else
      var s := Run(talkgroup, arrivals[..|arrivals| - 1]);
      if s.stopped then s else Step(s, talkgroup, InputOf(arrivals[|arrivals| - 1]))
  }

  // ----- the code ---------------------------------------------------------------------------

  class Reader {
    const talkgroup: id32
    var rxSrcID: id32
    var rxActive: bool
    /** The callbacks made so far. */
    var events: seq<Event>

    ghost function Value(stopped: bool): Rx
      reads this
    {
      Rx(rxActive, rxSrcID, events, stopped)
    }

    constructor (talkgroup: id32)
      ensures this.talkgroup == talkgroup && Value(false) == START
    {
      this.talkgroup := talkgroup;
      rxSrcID, rxActive, events := 0, false, [];
    }

    method EndCall()
      modifies this
      ensures Value(false) == Ended(old(Value(false)))
    {
      if !rxActive {
        return;
      }
      var src := rxSrcID;
      rxActive := false;
      rxSrcID := 0;
      events := events + [CallEnd(src)];
    }

    method OnSuperHeader(payload: seq<byte>)
      modifies this
      ensures Value(false) == Step(old(Value(false)), talkgroup, SuperHeader(payload))
    {
      hide Number;
      if |payload| < 12 || Number(payload, 8) != talkgroup {
        return;
      }
      var srcID := Number(payload, 4);
      if rxActive && srcID != rxSrcID {
        EndCall();
      }
      if !rxActive {
        rxActive := true;
        rxSrcID := srcID;
        events := events + [CallStart(srcID, talkgroup)];
      }
    }

    method OnAudio(payload: seq<byte>)
      modifies this
      ensures Value(false) == Step(old(Value(false)), talkgroup, AudioFrame(payload))
    {
      if |payload| < AUDIO_LEN {
        return;
      }
      if !rxActive {
        rxActive := true;
        events := events + [CallStart(rxSrcID, talkgroup)];
      }
      var frames: Triple := [payload[0..9], payload[9..18], payload[18..27]];
      events := events + [Voice(rxSrcID, frames)];
    }

    /** The reader's loop over whatever arrives; stopped says whether the server closed the connection. */
    method RunReader(arrivals: seq<Arrival>) returns (stopped: bool)
      requires Value(false) == START
      modifies this
      ensures Value(stopped) == Run(talkgroup, arrivals)
    {
      hide Classified;
      for k := 0 to |arrivals|
        invariant Value(false) == Run(talkgroup, arrivals[..k])
      {
        assert arrivals[..k + 1][..k] == arrivals[..k];
        match InputOf(arrivals[k])
        case SuperHeader(p) => OnSuperHeader(p);
        case AudioFrame(p) => OnAudio(p);
        case Terminator => EndCall();
        case Quiet =>
          if rxActive {
            EndCall();
          }
        case Close =>
          ClosedStays(talkgroup, arrivals, k + 1);
          return true;
        case Other =>
      }
      assert arrivals[..|arrivals|] == arrivals;
      return false;
    }
  }

  lemma {:induction false} ClosedStays(talkgroup: id32, arrivals: seq<Arrival>, k: nat)
    requires k <= |arrivals| && Run(talkgroup, arrivals[..k]).stopped
    ensures Run(talkgroup, arrivals) == Run(talkgroup, arrivals[..k])
    decreases |arrivals|
  {
    hide Step, InputOf;
    if k == |arrivals| {
      assert arrivals[..k] == arrivals;
    } else {
      assert arrivals[..|arrivals| - 1][..k] == arrivals[..k];
      ClosedStays(talkgroup, arrivals[..|arrivals| - 1], k);
    }
  }

  // ----- calls ------------------------------------------------------------------------------

  /** Where a list of callbacks leaves a listener who expects calls one after the other. */
  datatype Phase = Idle | InCall(srcID: id32) | Broken

  function After(p: Phase, e: Event): Phase {
    match e
    case CallStart(srcID, _) => if p.Idle? then InCall(srcID) else Broken
    case Voice(srcID, _) => if p == InCall(srcID) then p else Broken
    case CallEnd(srcID) => if p == InCall(srcID) then Idle else Broken
  }

  function PhaseOf(events: seq<Event>): Phase {
    if |events| == 0 then Idle else After(PhaseOf(events[..|events| - 1]), events[|events| - 1])
  }

  lemma PhaseSnoc(events: seq<Event>, e: Event)
    ensures PhaseOf(events + [e]) == After(PhaseOf(events), e)
  {
    assert (events + [e])[..|events|] == events;
  }

  function PhaseFor(s: Rx): Phase {
    if s.active then InCall(s.srcID) else Idle
  }

  lemma StepBrackets(s: Rx, talkgroup: id32, i: Input)
    requires PhaseOf(s.events) == PhaseFor(s) && (!s.active ==> s.srcID == 0)
    ensures var t := Step(s, talkgroup, i);
            PhaseOf(t.events) == PhaseFor(t) && (!t.active ==> t.srcID == 0)
  {
    hide PhaseOf, Number, Carried;
    var e := Ended(s);
    PhaseSnoc(s.events, CallEnd(s.srcID));
    match i
    case SuperHeader(p) =>
      if |p| >= 12 {
        var srcID := Number(p, 4);
        PhaseSnoc(s.events, CallStart(srcID, talkgroup));
        PhaseSnoc(e.events, CallStart(srcID, talkgroup));
      }
    case AudioFrame(p) =>
      if |p| >= AUDIO_LEN {
        var t := Started(s, s.srcID, talkgroup);
        PhaseSnoc(s.events, CallStart(s.srcID, talkgroup));
        PhaseSnoc(t.events, Voice(t.srcID, Carried(p)));
      }
    case Terminator =>
    case Quiet =>
    case Close =>
    case Other =>
  }

  /** Over any inputs, starts and ends alternate, each end carries the source of its start, every voice callback lies
      inside a call of its own source, and a call is open exactly while the reader says so. */
  lemma {:induction false} CallsAreBracketed(talkgroup: id32, arrivals: seq<Arrival>)
    ensures var s := Run(talkgroup, arrivals);
            PhaseOf(s.events) == (if s.active then InCall(s.srcID) else Idle) && (!s.active ==> s.srcID == 0)
  {
    hide PhaseOf, Step, InputOf;
    if |arrivals| == 0 {
      assert PhaseOf([]) == Idle by { NoEvents(); }
    } else {
      CallsAreBracketed(talkgroup, arrivals[..|arrivals| - 1]);
      StepBrackets(Run(talkgroup, arrivals[..|arrivals| - 1]), talkgroup, InputOf(arrivals[|arrivals| - 1]));
    }
  }

  lemma NoEvents()
    ensures PhaseOf([]) == Idle
  {
  }

  function AudioIn(a: Arrival): seq<Ambe> {
    var i := InputOf(a);
    if i.AudioFrame? && |i.payload| >= AUDIO_LEN then Carried(i.payload) else []
  }

  /** The audio of all packets before the first close, in order. */
  function Arrived(arrivals: seq<Arrival>): seq<Ambe> {
    if |arrivals| == 0 || InputOf(arrivals[0]).Close? then [] else AudioIn(arrivals[0]) + Arrived(arrivals[1..])
  }

  predicate Closes(arrivals: seq<Arrival>) {
    exists i :: 0 <= i < |arrivals| && InputOf(arrivals[i]).Close?
  }

  lemma {:induction false} ArrivedSnoc(arrivals: seq<Arrival>, a: Arrival)
    ensures Arrived(arrivals + [a]) == Arrived(arrivals) + if Closes(arrivals) then [] else AudioIn(a)
    ensures Closes(arrivals + [a]) <==> Closes(arrivals) || InputOf(a).Close?
  {
    hide InputOf, AudioIn;
    var all := arrivals + [a];
    assert Closes(all) <==> Closes(arrivals) || InputOf(a).Close? by {
      assert forall i :: 0 <= i < |arrivals| ==> all[i] == arrivals[i];
      assert all[|arrivals|] == a;
    }
    if |arrivals| > 0 {
      ArrivedSnoc(arrivals[1..], a);
      assert all[1..] == arrivals[1..] + [a];
      assert Closes(arrivals) <==> InputOf(arrivals[0]).Close? || Closes(arrivals[1..]) by {
        assert forall i :: 0 < i < |arrivals| ==> arrivals[i] == arrivals[1..][i - 1];
      }
    } else {
      assert all[1..] == [];
      CloseHasNoAudio(a);
    }
  }

  lemma CloseHasNoAudio(a: Arrival)
    ensures InputOf(a).Close? ==> AudioIn(a) == []
  {
  }

  lemma VoiceOfSnoc(events: seq<Event>, e: Event)
    ensures VoiceOf(events + [e]) == VoiceOf(events) + if e.Voice? then e.frames else []
  {
    assert (events + [e])[..|events|] == events;
  }

  /** Until the server closes, audio is never dropped, doubled or reordered, whether a super header announced it or
      not. */
  lemma {:induction false} AudioIsConserved(talkgroup: id32, arrivals: seq<Arrival>)
    ensures VoiceOf(Run(talkgroup, arrivals).events) == Arrived(arrivals)
    ensures Run(talkgroup, arrivals).stopped <==> Closes(arrivals)
  {
    hide VoiceOf, InputOf, Step, AudioIn;
    if |arrivals| == 0 {
      NoVoice();
    } else {
      var before, a := arrivals[..|arrivals| - 1], arrivals[|arrivals| - 1];
      AudioIsConserved(talkgroup, before);
      assert arrivals == before + [a];
      ArrivedSnoc(before, a);
      StepVoice(Run(talkgroup, before), talkgroup, a);
    }
  }

  lemma NoVoice()
    ensures VoiceOf([]) == []
  {
  }

  lemma StepVoice(s: Rx, talkgroup: id32, a: Arrival)
    ensures var t := Step(s, talkgroup, InputOf(a));
            VoiceOf(t.events) == VoiceOf(s.events) + AudioIn(a) && (t.stopped <==> s.stopped || InputOf(a).Close?)
  {
    hide VoiceOf, Carried, Number, InputOf;
    var i := InputOf(a);
    var e := Ended(s);
    VoiceOfSnoc(s.events, CallEnd(s.srcID));
    match i
    case SuperHeader(p) =>
      if |p| >= 12 {
        VoiceOfSnoc(s.events, CallStart(Number(p, 4), talkgroup));
        VoiceOfSnoc(e.events, CallStart(Number(p, 4), talkgroup));
      }
    case AudioFrame(p) =>
      if |p| >= AUDIO_LEN {
        var t := Started(s, s.srcID, talkgroup);
        VoiceOfSnoc(s.events, CallStart(s.srcID, talkgroup));
        VoiceOfSnoc(t.events, Voice(t.srcID, Carried(p)));
      }
    case Terminator =>
    case Quiet =>
    case Close =>
    case Other =>
  }

  // ----- the bytes of a datagram ------------------------------------------------------------

  /** A REWIND datagram of a type with at least n bytes of payload, of which no announced byte is missing. */
  predicate Rewind(data: seq<byte>, low: byte, high: byte, n: nat) {
    && |data| >= 18 && data[..8] == [0x52, 0x45, 0x57, 0x49, 0x4E, 0x44, 0x30, 0x31]
    && data[8] == low && data[9] == high
    && n <= data[16] as nat + 256 * data[17] as nat <= |data| - 18
  }

  /** The 32-bit number in the four bytes from at on, the least significant first. */
  function Little(data: seq<byte>, at: nat): id32
    requires at + 4 <= |data|
  {
    Sum32(data[at + 3], data[at + 2], data[at + 1], data[at])
  }

  lemma NumberIsLittle(payload: seq<byte>, at: nat)
    requires at + 4 <= |payload|
    ensures Number(payload, at) == Little(payload, at)
  {
    hide Sum32, Word;
    SumIsWord(payload[at + 3], payload[at + 2], payload[at + 1], payload[at]);
  }

  lemma NumberInPayload(data: seq<byte>, n: nat, at: nat)
    requires 18 <= 18 + n <= |data| && at + 4 <= n
    ensures Number(data[18..18 + n], at) == Little(data, 18 + at)
  {
    hide Sum32, Word;
    var p := data[18..18 + n];
    NumberIsLittle(p, at);
    assert p[at] == data[18 + at] && p[at + 1] == data[18 + at + 1];
    assert p[at + 2] == data[18 + at + 2] && p[at + 3] == data[18 + at + 3];
  }

  lemma PartOfPayload(data: seq<byte>, n: nat, lo: nat, hi: nat)
    requires 18 <= 18 + n <= |data| && lo <= hi <= n
    ensures data[18..18 + n][lo..hi] == data[18 + lo..18 + hi]
  {
    var p := data[18..18 + n];
    forall k | 0 <= k < hi - lo
      ensures p[lo..hi][k] == data[18 + lo..18 + hi][k]
    {
      assert p[lo + k] == data[18 + lo + k];
    }
  }

  /** The callbacks that one datagram makes, and the call that is on behind it. A super header names its source in bytes
      22 to 25 and its talkgroup in bytes 26 to 29; audio brings three frames from byte 18 on. */
  function OnTheAir(s: Rx, talkgroup: id32, data: seq<byte>): Rx {
    if Rewind(data, 0x28, 0x09, 12) then
      var source := Little(data, 22);
      if Little(data, 26) != talkgroup then s
      else if !s.active then Rx(true, source, s.events + [CallStart(source, talkgroup)], s.stopped)
      else if source == s.srcID then s
      else Rx(true, source, s.events + [CallEnd(s.srcID), CallStart(source, talkgroup)], s.stopped)
    else if Rewind(data, 0x20, 0x09, 27) then
      var voice := Voice(s.srcID, [data[18..27], data[27..36], data[36..45]]);
      Rx(true, s.srcID, s.events + (if s.active then [] else [CallStart(s.srcID, talkgroup)]) + [voice], s.stopped)
    else if Rewind(data, 0x12, 0x09, 0) then
      if s.active then Rx(false, 0, s.events + [CallEnd(s.srcID)], s.stopped) else s
    else if Rewind(data, 0x01, 0x00, 0) then Rx(s.active, s.srcID, s.events, true)
    else s
  }

  lemma SuperHeaderIsRead(s: Rx, talkgroup: id32, data: seq<byte>, n: nat)
    requires 18 <= 18 + n <= |data| && n >= 12
    ensures Step(s, talkgroup, SuperHeader(data[18..18 + n])) ==
            var source := Little(data, 22);
            if Little(data, 26) != talkgroup then s
            else if !s.active then Rx(true, source, s.events + [CallStart(source, talkgroup)], s.stopped)
            else if source == s.srcID then s
            else Rx(true, source, s.events + [CallEnd(s.srcID), CallStart(source, talkgroup)], s.stopped)
  {
    hide Number, Little;
    NumberInPayload(data, n, 4);
    NumberInPayload(data, n, 8);
    Regroup(s.events, CallEnd(s.srcID), CallStart(Little(data, 22), talkgroup));
  }

  lemma AudioIsRead(s: Rx, talkgroup: id32, data: seq<byte>, n: nat)
    requires 18 <= 18 + n <= |data| && n >= 27
    ensures Step(s, talkgroup, AudioFrame(data[18..18 + n])) ==
            var voice := Voice(s.srcID, [data[18..27], data[27..36], data[36..45]]);
            var begun := s.events + if s.active then [] else [CallStart(s.srcID, talkgroup)];
            Rx(true, s.srcID, begun + [voice], s.stopped)
  {
    PartOfPayload(data, n, 0, 9);
    PartOfPayload(data, n, 9, 18);
    PartOfPayload(data, n, 18, 27);
  }

  lemma Types(data: seq<byte>)
    ensures Classified(data).SuperHeader? <==> Rewind(data, 0x28, 0x09, 0)
    ensures Classified(data).AudioFrame? <==> Rewind(data, 0x20, 0x09, 0)
    ensures Classified(data).Terminator? <==> Rewind(data, 0x12, 0x09, 0)
    ensures Classified(data).Close? <==> Rewind(data, 0x01, 0x00, 0)
    ensures !Classified(data).Quiet?
  {
  }

  lemma Payloads(data: seq<byte>)
    ensures Classified(data).SuperHeader? || Classified(data).AudioFrame? ==>
              && 18 <= 18 + Length(data) <= |data|
              && Classified(data).payload == data[18..18 + Length(data)]
              && (Rewind(data, 0x28, 0x09, 12) <==> Classified(data).SuperHeader? && Length(data) >= 12)
              && (Rewind(data, 0x20, 0x09, 27) <==> Classified(data).AudioFrame? && Length(data) >= 27)
  {
  }

  lemma LongerIsAny(data: seq<byte>, low: byte, high: byte, n: nat)
    requires Rewind(data, low, high, n)
    ensures Rewind(data, low, high, 0) && |data| >= 18 + n
  {
  }

  /** That is what every datagram does. Two seconds without audio do what a terminator does. */
  lemma DatagramIsRead(s: Rx, talkgroup: id32, data: seq<byte>)
    ensures Step(s, talkgroup, InputOf(Datagram(data))) == OnTheAir(s, talkgroup, data)
    ensures (Step(s, talkgroup, InputOf(Silence))
             == if s.active then Rx(false, 0, s.events + [CallEnd(s.srcID)], s.stopped) else s)
  {
    hide Number, Little, Carried, Classified, Length, Started;
    Types(data);
    Payloads(data);
    if Rewind(data, 0x28, 0x09, 12) {
      LongerIsAny(data, 0x28, 0x09, 12);
    }
    if Rewind(data, 0x20, 0x09, 27) {
      LongerIsAny(data, 0x20, 0x09, 27);
    }
    hide Rewind;
    match Classified(data)
    case SuperHeader(p) =>
      if Length(data) >= 12 {
        SuperHeaderIsRead(s, talkgroup, data, Length(data));
      }
    case AudioFrame(p) =>
      if Length(data) >= 27 {
        AudioIsRead(s, talkgroup, data, Length(data));
      }
    case _ =>
  }

  lemma Regroup(events: seq<Event>, a: Event, b: Event)
    ensures events + [a] + [b] == events + [a, b]
  {
  }
}
