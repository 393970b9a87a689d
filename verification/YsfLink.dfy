/** From one YSF bridge to another: what the reader forwards (ysf_bridge/ysf_client.go), and what a whole transmission
    sounds like at the other end. strings.TrimSpace and strings.EqualFold are modelled for ASCII. */
module YsfLink {
  import opened Bits
  import opened Buffers
  import opened Ysfd
  import opened YsfClient
  import opened YsfReceive
  import Vd2

  const POLL: seq<byte> := [0x59, 0x53, 0x46, 0x50]  // "YSFP"

  // ----- callsigns --------------------------------------------------------------------------

  predicate IsSpace(b: byte) {
    b == 0x20 || b == 0x09 || b == 0x0A || b == 0x0B || b == 0x0C || b == 0x0D
  }

  function TrimRight(s: seq<byte>): (r: seq<byte>)
    ensures |r| <= |s|
  {
    if |s| > 0 && IsSpace(s[|s| - 1]) then TrimRight(s[..|s| - 1]) else s
  }

  function TrimLeft(s: seq<byte>): (r: seq<byte>)
    ensures |r| <= |s|
  {
    if |s| > 0 && IsSpace(s[0]) then TrimLeft(s[1..]) else s
  }

  function Trim(s: seq<byte>): seq<byte> { TrimLeft(TrimRight(s)) }

  function Fold(b: byte): byte { if 0x41 <= b <= 0x5A then b + 0x20 else b }

  predicate EqualFold(s: seq<byte>, t: seq<byte>) {
    |s| == |t| && forall i :: 0 <= i < |s| ==> Fold(s[i]) == Fold(t[i])
  }

  /** The test by which a bridge recognises its own packets. */
  predicate Own(callsign: seq<byte>, srcGateway: seq<byte>) {
    EqualFold(Trim(srcGateway), callsign)
  }

  lemma {:induction false} TrimRightOfPadding(s: seq<byte>, n: nat)
    ensures TrimRight(s + seq(n, _ => SPACE)) == TrimRight(s)
  {
    hide IsSpace;
    var t := s + seq(n, _ => SPACE);
    if n == 0 {
      assert t == s;
    } else {
      SpaceIsSpace();
      TrimRightOfPadding(s, n - 1);
      assert t[..|t| - 1] == s + seq(n - 1, _ => SPACE);
    }
  }

  lemma SpaceIsSpace()
    ensures IsSpace(SPACE)
  {
  }

  lemma {:induction false} TrimRightIdentity(s: seq<byte>)
    ensures |TrimRight(s)| == |s| ==> TrimRight(s) == s
  {
  }

  lemma {:induction false} TrimLeftIdentity(s: seq<byte>)
    ensures |TrimLeft(s)| == |s| ==> TrimLeft(s) == s
  {
  }

  /** A bridge recognises its own packets exactly when its callsign fits the ten-byte field and has no blanks at its
      ends. With a longer callsign it treats its own echo as somebody else's transmission. */
  lemma OwnPacketsRecognised(callsign: seq<byte>)
    ensures Own(callsign, Padded(callsign, CALLSIGN_LEN)) <==> |callsign| <= CALLSIGN_LEN && Trim(callsign) == callsign
  {
    hide TrimRight, TrimLeft, Fold;
    if |callsign| <= CALLSIGN_LEN {
      TrimRightOfPadding(callsign, CALLSIGN_LEN - |callsign|);
      assert callsign + seq(0, _ => SPACE) == callsign;
      assert Trim(Padded(callsign, CALLSIGN_LEN)) == Trim(callsign);
      TrimRightIdentity(callsign);
      TrimLeftIdentity(callsign);
    }
  }

  // ----- the reader -------------------------------------------------------------------------

  datatype Forward = Drop | Deliver(frame: VoiceFrame)

  /** What RunReader passes to the voice callback for one datagram. */
  function Forwarded(callsign: seq<byte>, data: seq<byte>): Forward {
    if |data| >= 4 && data[..4] == POLL then Drop
    else
      match Parse(data)
      case NotYsfd => Drop
      case Parsed(f) => if Own(callsign, f.srcGateway) || f.dt != DT_VD2 then Drop else Deliver(f)
  }

  method Dispatch(callsign: seq<byte>, data: seq<byte>) returns (r: Forward)
    ensures r == Forwarded(callsign, data)
  {
    hide Parse, Own;
    if |data| >= 4 && data[..4] == POLL {
      return Drop;
    }
    var p := ParseYsfd(data);
    if p.NotYsfd? || Own(callsign, p.frame.srcGateway) || p.frame.dt != DT_VD2 {
      return Drop;
    }
    return Deliver(p.frame);
  }

  lemma DeliveredPayload(callsign: seq<byte>, data: seq<byte>)
    ensures Forwarded(callsign, data).Deliver? ==> |Forwarded(callsign, data).frame.payload| == PAYLOAD_LEN
  {
    hide Own;
  }

  /** The streams after the reader has handled a list of datagrams while no SVX talker is on. */
  function Receive(s: Streams, decode: Decoder, callsign: seq<byte>, wire: seq<seq<byte>>): Streams {
    if |wire| == 0 then s
    else
      var t := Receive(s, decode, callsign, wire[..|wire| - 1]);
      ReceiveOne(t, decode, callsign, wire[|wire| - 1])
  }

  function ReceiveOne(s: Streams, decode: Decoder, callsign: seq<byte>, data: seq<byte>): Streams {
    DeliveredPayload(callsign, data);
    match Forwarded(callsign, data)
    case Drop => s
    case Deliver(f) => OnFrame(s, decode, f)
  }

  /** The reader goroutine over a list of datagrams that arrive while an SVX talker is on, or while none is. */
  method RunReader(rx: Receiver, callsign: seq<byte>, wire: seq<seq<byte>>)
    requires rx.Valid()
    modifies rx
    ensures rx.Valid() && rx.svxTalking == old(rx.svxTalking)
    ensures rx.streams ==
            if rx.svxTalking then old(rx.streams) else Receive(old(rx.streams), rx.decode, callsign, wire)
  {
    hide Forwarded, OnFrame, Rendered;
    for i := 0 to |wire|
      invariant rx.Valid() && rx.svxTalking == old(rx.svxTalking)
      invariant rx.streams ==
                if rx.svxTalking then old(rx.streams) else Receive(old(rx.streams), rx.decode, callsign, wire[..i])
    {
      assert wire[..i + 1][..i] == wire[..i];
      DeliveredPayload(callsign, wire[i]);
      var r := Dispatch(callsign, wire[i]);
      if r.Deliver? {
        rx.VoiceCallback(r.frame);
      }
    }
    assert wire[..|wire|] == wire;
  }

  // ----- what passes ------------------------------------------------------------------------

  predicate Blank(b: byte) { b in [0x20, 0x09, 0x0A, 0x0B, 0x0C, 0x0D] }

  /** The same character, or the other case of the same letter. */
  predicate SameLetter(x: byte, y: byte) {
    x == y || (0x41 <= x <= 0x5A && y == x + 0x20) || (0x41 <= y <= 0x5A && x == y + 0x20)
  }

  /** From a on, gateway holds the callsign but for the case of letters, and outside of that nothing but blanks. */
  ghost predicate Holds(gateway: seq<byte>, callsign: seq<byte>, a: nat) {
    && a + |callsign| <= |gateway|
    && (forall k :: 0 <= k < |callsign| ==> SameLetter(gateway[a + k], callsign[k]))
    && BlankOutside(gateway, a, a + |callsign|)
  }

  lemma FoldedAlike(x: byte, y: byte)
    ensures Fold(x) == Fold(y) <==> SameLetter(x, y)
    ensures SameLetter(x, y) ==> Blank(x) == Blank(y)
  {
  }

  lemma BlankIsSpace(b: byte)
    ensures Blank(b) <==> IsSpace(b)
  {
  }

  /** All of s outside of the bytes from a to b is blank. */
  predicate BlankOutside(s: seq<byte>, a: nat, b: nat) {
    forall k :: 0 <= k < |s| && !(a <= k < b) ==> Blank(s[k])
  }

  predicate BlankEnds(s: seq<byte>) {
    |s| > 0 ==> !Blank(s[0]) && !Blank(s[|s| - 1])
  }

  /** t stands in s from a on. */
  predicate PartAt(s: seq<byte>, t: seq<byte>, a: nat) {
    a + |t| <= |s| && forall k :: 0 <= k < |t| ==> t[k] == s[a + k]
  }

  lemma {:induction false} TrimRightIs(s: seq<byte>)
    ensures var r := TrimRight(s);
            PartAt(s, r, 0) && BlankOutside(s, 0, |r|) && (|r| > 0 ==> !Blank(r[|r| - 1]))
  {
    hide Blank, IsSpace;
    if |s| > 0 {
      BlankIsSpace(s[|s| - 1]);
      if IsSpace(s[|s| - 1]) {
        TrimRightIs(s[..|s| - 1]);
      }
    }
  }

  lemma {:induction false} TrimLeftIs(s: seq<byte>)
    ensures var t := TrimLeft(s);
            PartAt(s, t, |s| - |t|) && BlankOutside(s, |s| - |t|, |s|) && (|t| > 0 ==> !Blank(t[0]))
  {
    hide Blank, IsSpace;
    if |s| > 0 {
      BlankIsSpace(s[0]);
      if IsSpace(s[0]) {
        TrimLeftIs(s[1..]);
        assert forall k :: 0 < k < |s| ==> s[k] == s[1..][k - 1];
      }
    }
  }

  lemma PartOfPart(s: seq<byte>, r: seq<byte>, t: seq<byte>, a: nat)
    requires PartAt(s, r, 0) && BlankOutside(s, 0, |r|) && (|r| > 0 ==> !Blank(r[|r| - 1]))
    requires a + |t| == |r| && PartAt(r, t, a) && BlankOutside(r, a, |r|) && (|t| > 0 ==> !Blank(t[0]))
    ensures PartAt(s, t, a) && BlankOutside(s, a, a + |t|) && BlankEnds(t)
  {
    hide Blank;
    assert |t| > 0 ==> t[|t| - 1] == r[|r| - 1];
    assert forall k :: 0 <= k < |r| ==> r[k] == s[k];
  }

  /** What Trim leaves begins at a, with blanks only around it and none at its ends. */
  lemma TrimIs(s: seq<byte>) returns (a: nat)
    ensures PartAt(s, Trim(s), a) && BlankOutside(s, a, a + |Trim(s)|) && BlankEnds(Trim(s))
  {
    hide PartAt, BlankOutside, BlankEnds, Blank, TrimLeft, TrimRight;
    var r := TrimRight(s);
    TrimRightIs(s);
    TrimLeftIs(r);
    a := |r| - |TrimLeft(r)|;
    PartOfPart(s, r, TrimLeft(r), a);
  }

  /** A bridge takes a packet for its own exactly if its callsign stands in the gateway field, in whatever case and with
      blanks around it, and has no blanks at its ends itself. */
  lemma OwnMeans(callsign: seq<byte>, gateway: seq<byte>)
    ensures Own(callsign, gateway) <==> BlankEnds(callsign) && exists a :: Holds(gateway, callsign, a)
  {
    hide PartAt, BlankOutside, Blank, Trim, EqualFold;
    var t := Trim(gateway);
    var b := TrimIs(gateway);
    if Own(callsign, gateway) {
      OwnIsHeld(callsign, gateway, t, b);
    }
    if BlankEnds(callsign) {
      if a: nat :| Holds(gateway, callsign, a) {
        HeldIsOwn(callsign, gateway, t, b, a);
      }
    }
  }

  lemma OwnIsHeld(callsign: seq<byte>, gateway: seq<byte>, t: seq<byte>, b: nat)
    requires PartAt(gateway, t, b) && BlankOutside(gateway, b, b + |t|) && BlankEnds(t)
    requires EqualFold(t, callsign)
    ensures BlankEnds(callsign) && Holds(gateway, callsign, b)
  {
    hide Fold, SameLetter, Blank;
    forall i | 0 <= i < |t|
      ensures SameLetter(gateway[b + i], callsign[i])
    {
      FoldedAlike(t[i], callsign[i]);
    }
    if |t| > 0 {
      FoldedAlike(t[0], callsign[0]);
      FoldedAlike(t[|t| - 1], callsign[|t| - 1]);
    }
  }

  lemma HeldIsOwn(callsign: seq<byte>, gateway: seq<byte>, t: seq<byte>, b: nat, a: nat)
    requires PartAt(gateway, t, b) && BlankOutside(gateway, b, b + |t|) && BlankEnds(t)
    requires BlankEnds(callsign) && Holds(gateway, callsign, a)
    ensures EqualFold(t, callsign)
  {
    hide Fold, SameLetter, Blank;
    var n := |callsign|;
    if n > 0 {
      FoldedAlike(gateway[a], callsign[0]);
      FoldedAlike(gateway[a + n - 1], callsign[n - 1]);
      SameCore(gateway, b, b + |t|, a, a + n);
      forall i | 0 <= i < n
        ensures Fold(t[i]) == Fold(callsign[i])
      {
        FoldedAlike(gateway[a + i], callsign[i]);
      }
    }
  }

  /** Only one part of s has blanks around it and none at its ends. */
  lemma SameCore(s: seq<byte>, b: nat, c: nat, a: nat, d: nat)
    requires b <= c <= |s| && BlankOutside(s, b, c) && (b < c ==> !Blank(s[b]) && !Blank(s[c - 1]))
    requires a < d <= |s| && BlankOutside(s, a, d) && !Blank(s[a]) && !Blank(s[d - 1])
    ensures a == b && d == c
  {
    hide Blank;
  }

  /** Polls and whatever is no YSFD packet, packets of its own and packets of another data type than VD mode 2 do not
      reach the voice callback; all others do. */
  lemma WhatPasses(callsign: seq<byte>, data: seq<byte>)
    ensures Forwarded(callsign, data).Deliver? <==>
            && Parse(data).Parsed? && Parse(data).frame.dt == 2 && !Own(callsign, Parse(data).frame.srcGateway)
    ensures Forwarded(callsign, data).Deliver? ==> Forwarded(callsign, data).frame == Parse(data).frame
    ensures |data| >= 4 && data[..4] == [0x59, 0x53, 0x46, 0x50] ==> Forwarded(callsign, data) == Drop
  {
    ParsedIsNoPoll(data);
    hide Own;
  }

  // ----- a transmission, end to end ---------------------------------------------------------

  /** The samples of an over: the decoder's output for the voice bits of every frame, in order, after one reset. */
  function Spoken(s: Streams, decode: Decoder, voice: seq<Voice>): Streams {
    if |voice| == 0 then s
    else Heard(Spoken(s, decode, voice[..|voice| - 1]), decode, Masks(voice[|voice| - 1]))
  }

  lemma {:induction false} SpokenKeeps(s: Streams, decode: Decoder, voice: seq<Voice>)
    ensures Spoken(s, decode, voice).open == s.open && Spoken(s, decode, voice).done == s.done
  {
    hide Heard, Masks;
    if |voice| > 0 {
      SpokenKeeps(s, decode, voice[..|voice| - 1]);
    }
  }

  lemma ReceiveHeader(s: Streams, decode: Decoder, callsign: seq<byte>, sender: seq<byte>, dgid: byte)
    requires !Own(callsign, Padded(sender, CALLSIGN_LEN))
    ensures ReceiveOne(s, decode, callsign, Header(sender, dgid)) == Opened(s)
  {
    hide Parse, Own, Padded, Header, Heard, Num;
    HeaderParses(sender, dgid);
    ParsedIsNoPoll(Header(sender, dgid));
  }

  lemma ParsedIsNoPoll(data: seq<byte>)
    ensures Parse(data).Parsed? ==> |data| >= 4 && data[..4] != POLL
  {
    assert SIGNATURE[3] != POLL[3];
  }

  lemma ReceiveComm(s: Streams, decode: Decoder, callsign: seq<byte>, sender: seq<byte>, dgid: byte, k: nat,
                    voice: Voice)
    requires s.open && !Own(callsign, Padded(sender, CALLSIGN_LEN))
    ensures ReceiveOne(s, decode, callsign, Comm(sender, dgid, CounterAt(k), FnAt(k), voice))
            == Heard(s, decode, Masks(voice))
  {
    hide Parse, Own, Padded, Comm, Heard, Num, Vd2.Frames, Masks, CounterAt, FnAt;
    var pkt := Comm(sender, dgid, CounterAt(k), FnAt(k), voice);
    CommParses(sender, dgid, k, voice);
    ParsedIsNoPoll(pkt);
  }

  lemma ReceiveTerm(s: Streams, decode: Decoder, callsign: seq<byte>, sender: seq<byte>, dgid: byte, n: nat)
    requires !Own(callsign, Padded(sender, CALLSIGN_LEN))
    ensures ReceiveOne(s, decode, callsign, Term(sender, dgid, CounterAt(n))) == Closed(s)
  {
    hide Parse, Own, Padded, Term, Heard, Num, CounterAt;
    TermParses(sender, dgid, n);
    ParsedIsNoPoll(Term(sender, dgid, CounterAt(n)));
  }

  lemma {:induction false} ReceiveComms(s: Streams, decode: Decoder, callsign: seq<byte>, sender: seq<byte>, dgid: byte,
                                        voice: seq<Voice>)
    requires !Own(callsign, Padded(sender, CALLSIGN_LEN))
    ensures Receive(s, decode, callsign, [Header(sender, dgid)] + Comms(sender, dgid, voice))
            == Spoken(Opened(s), decode, voice)
  {
    hide Own, Padded, Header, Comm, ReceiveOne, Heard, Masks, CounterAt, FnAt;
    var wire := [Header(sender, dgid)] + Comms(sender, dgid, voice);
    if |voice| == 0 {
      ReceiveHeader(s, decode, callsign, sender, dgid);
      assert wire[..0] == [];
    } else {
      var k := |voice| - 1;
      ReceiveComms(s, decode, callsign, sender, dgid, voice[..k]);
      SpokenKeeps(Opened(s), decode, voice[..k]);
      ReceiveComm(Spoken(Opened(s), decode, voice[..k]), decode, callsign, sender, dgid, k, voice[k]);
      assert wire[..|wire| - 1] == [Header(sender, dgid)] + Comms(sender, dgid, voice[..k]);
    }
  }

  /** Whatever one bridge transmits, another that does not share its callsign hears exactly once: one stream, whose
      samples are the decoder's output for the voice bits of every frame in order, and nothing stays open. Where a
      stream is open already, the voice is added to that one and ends it. */
  lemma TransmissionIsHeard(s: Streams, decode: Decoder, callsign: seq<byte>, sender: seq<byte>, dgid: byte,
                            voice: seq<Voice>)
    requires !Own(callsign, Padded(sender, CALLSIGN_LEN))
    ensures var t := Receive(s, decode, callsign, Transmission(sender, dgid, voice));
            && !t.open
            && t.done == s.done + [Spoken(Opened(s), decode, voice).samples]
            && Rendered(t) == Finished(s.done) + Over(Spoken(Opened(s), decode, voice).samples)
            && (!s.open ==> Rendered(s) == Finished(s.done))
  {
    hide Own, Padded, Header, Comms, Term, ReceiveOne, Spoken, CounterAt;
    var wire := Transmission(sender, dgid, voice);
    var before := [Header(sender, dgid)] + Comms(sender, dgid, voice);
    assert wire[..|wire| - 1] == before;
    ReceiveComms(s, decode, callsign, sender, dgid, voice);
    SpokenKeeps(Opened(s), decode, voice);
    var u := Spoken(Opened(s), decode, voice);
    ReceiveTerm(u, decode, callsign, sender, dgid, |voice|);
    assert Closed(u).done[..|u.done|] == s.done;
  }
}
