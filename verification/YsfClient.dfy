/** Sending voice to a YSF reflector (ysf_bridge/ysf_client.go:103-154). */
module YsfClient {
  import opened Bits
  import opened Buffers
  import opened Ysfd
  import Vd2

  type Ambe = f: seq<byte> | |f| == Vd2.AMBE_BYTES witness SILENT
  type Voice = v: seq<Ambe> | |v| == 5 witness [SILENT, SILENT, SILENT, SILENT, SILENT]

  const SILENT: seq<byte> := [0, 0, 0, 0, 0, 0, 0]

  const ALL: seq<byte> := [0x41, 0x4C, 0x4C]  // "ALL"
  const LAST_FN: byte := 6

  function EmptyPayload(): (p: seq<byte>)
    ensures |p| == PAYLOAD_LEN
  {
    seq(PAYLOAD_LEN, _ => 0)
  }

  function Header(callsign: seq<byte>, dgid: byte): seq<byte> {
    Packet(callsign, callsign, ALL, 0, false, FI_HEADER, 0, LAST_FN, DT_VD2, dgid, EmptyPayload())
  }

  function Comm(callsign: seq<byte>, dgid: byte, counter: byte, fn: byte, voice: Voice): seq<byte> {
    Packet(callsign, callsign, ALL, counter, false, FI_COMM, fn, LAST_FN, DT_VD2, dgid, Vd2.Payload(voice))
  }

  function Term(callsign: seq<byte>, dgid: byte, counter: byte): seq<byte> {
    Packet(callsign, callsign, ALL, counter, true, FI_TERM, 0, LAST_FN, DT_VD2, dgid, EmptyPayload())
  }

  function NextCounter(c: byte): byte { (c + 1) & 0x7F }

  function NextFn(fn: byte): byte { (fn + 1) % 7 }

  class Client {
    const callsign: seq<byte>
    const dgid: byte
    var txCounter: byte
    var txFN: byte
    /** The datagrams handed to the socket so far. */
    var wire: seq<seq<byte>>

    constructor (callsign: seq<byte>, dgid: byte)
      ensures this.callsign == callsign && this.dgid == dgid && wire == [] && txCounter == 0 && txFN == 0
    {
      this.callsign := callsign;
      this.dgid := dgid;
      txCounter, txFN, wire := 0, 0, [];
    }

    method StartTX()
      modifies this
      ensures wire == old(wire) + [Header(callsign, dgid)]
      ensures txCounter == 1 && txFN == 0
    {
      hide Packet;
      txCounter := 0;
      txFN := 0;
      var pkt := BuildYsfd(callsign, callsign, ALL, 0, false, FI_HEADER, 0, LAST_FN, DT_VD2, dgid, EmptyPayload());
      wire := wire + [pkt[..]];
      txCounter := 1;
    }

    method SendVoice(voice: Voice)
      modifies this
      ensures wire == old(wire) + [Comm(callsign, dgid, old(txCounter), old(txFN), voice)]
      ensures txCounter == NextCounter(old(txCounter)) && txFN == NextFn(old(txFN))
    {
      hide Packet;
      var counter := txCounter;
      txCounter := (txCounter + 1) & 0x7F;
      var fn := txFN;
      txFN := (txFN + 1) % 7;
      var payload := Vd2.PackVd2Ambe(voice);
      var pkt := BuildYsfd(callsign, callsign, ALL, counter, false, FI_COMM, fn, LAST_FN, DT_VD2, dgid, payload[..]);
      wire := wire + [pkt[..]];
    }

    method StopTX()
      modifies this
      ensures wire == old(wire) + [Term(callsign, dgid, old(txCounter))]
      ensures txCounter == NextCounter(old(txCounter)) && txFN == old(txFN)
    {
      hide Packet;
      var counter := txCounter;
      txCounter := (txCounter + 1) & 0x7F;
      var pkt := BuildYsfd(callsign, callsign, ALL, counter, true, FI_TERM, 0, LAST_FN, DT_VD2, dgid, EmptyPayload());
      wire := wire + [pkt[..]];
    }

    /** One whole over. */
    method Transmit(voice: seq<Voice>)
      modifies this
      ensures wire == old(wire) + Transmission(callsign, dgid, voice)
    {
      hide Header, Comm, Term;
      StartTX();
      for k := 0 to |voice|
        invariant wire == old(wire) + [Header(callsign, dgid)] + Comms(callsign, dgid, voice[..k])
        invariant txCounter == CounterAt(k) && txFN == FnAt(k)
      {
        SendVoice(voice[k]);
        assert voice[..k + 1][..k] == voice[..k];
      }
      assert voice[..|voice|] == voice;
      StopTX();
    }
  }

  // ----- a transmission as a whole ----------------------------------------------------------

  /** The counter and frame number of the k-th voice packet. */
  function CounterAt(k: nat): byte { if k == 0 then 1 else NextCounter(CounterAt(k - 1)) }

  function FnAt(k: nat): byte { if k == 0 then 0 else NextFn(FnAt(k - 1)) }

  function Comms(callsign: seq<byte>, dgid: byte, voice: seq<Voice>): (r: seq<seq<byte>>)
    ensures |r| == |voice|
  {
    if |voice| == 0 then []
    else
      var k := |voice| - 1;
      Comms(callsign, dgid, voice[..k]) + [Comm(callsign, dgid, CounterAt(k), FnAt(k), voice[k])]
  }

  function Transmission(callsign: seq<byte>, dgid: byte, voice: seq<Voice>): (r: seq<seq<byte>>)
    ensures |r| == |voice| + 2
  {
    [Header(callsign, dgid)] + Comms(callsign, dgid, voice) + [Term(callsign, dgid, CounterAt(|voice|))]
  }

  function Num(b: byte): nat { b as nat }

  lemma CounterTicks(c: byte)
    requires Num(c) < 128
    ensures Num(NextCounter(c)) == (Num(c) + 1) % 128
  {
  }

  lemma FnTicks(fn: byte)
    requires Num(fn) < 7
    ensures Num(NextFn(fn)) == (Num(fn) + 1) % 7
  {
  }

  lemma FirstCounts()
    ensures Num(0) == 0 && Num(1) == 1
  {
  }

  lemma {:induction false} CounterCounts(k: nat)
    ensures Num(CounterAt(k)) == (k + 1) % 128
  {
    hide NextCounter, Num;
    if k == 0 {
      FirstCounts();
    } else {
      CounterCounts(k - 1);
      CounterTicks(CounterAt(k - 1));
    }
  }

  lemma {:induction false} FnCounts(k: nat)
    ensures Num(FnAt(k)) == k % 7
  {
    hide NextFn, Num;
    if k == 0 {
      FirstCounts();
    } else {
      FnCounts(k - 1);
      FnTicks(FnAt(k - 1));
    }
  }

  lemma CountersAt(k: nat)
    ensures Num(CounterAt(k)) == (k + 1) % 128
    ensures Num(FnAt(k)) == k % 7
  {
    hide Num, CounterAt, FnAt;
    CounterCounts(k);
    FnCounts(k);
  }

  lemma {:induction false} CommAt(callsign: seq<byte>, dgid: byte, voice: seq<Voice>, k: nat)
    requires k < |voice|
    ensures Comms(callsign, dgid, voice)[k] == Comm(callsign, dgid, CounterAt(k), FnAt(k), voice[k])
  {
    hide Comm, CounterAt, FnAt;
    var n := |voice| - 1;
    if k < n {
      CommAt(callsign, dgid, voice[..n], k);
    }
  }

  lemma SmallFields(counter: byte, fn: byte)
    requires Num(counter) < 128 && Num(fn) < 7
    ensures counter & 0x7F == counter && fn & 0x07 == fn
    ensures LAST_FN & 0x07 == LAST_FN && DT_VD2 & 0x03 == DT_VD2
    ensures FI_HEADER & 0x03 == FI_HEADER && FI_COMM & 0x03 == FI_COMM && FI_TERM & 0x03 == FI_TERM
  {
  }

  /** The frame that packet k of a transmission of n voice packets parses to. */
  ghost predicate CarriesVoice(p: ParseResult, callsign: seq<byte>, dgid: byte, k: nat, voice: Voice) {
    && p.Parsed?
    && var f := p.frame;
    && f.srcGateway == f.srcRadio == Padded(callsign, CALLSIGN_LEN)
    && f.dest == Padded([0x41, 0x4C, 0x4C], CALLSIGN_LEN)
    && f.fi == FI_COMM && !f.eot && f.dt == DT_VD2 && f.dgId == dgid & 0x7F && f.ft == LAST_FN
    && Num(f.counter) == (k + 1) % 128 && Num(f.fn) == k % 7
    && |f.payload| == PAYLOAD_LEN && Vd2.Frames(f.payload) == Masks(voice)
  }

  ghost predicate CarriesNone(p: ParseResult, callsign: seq<byte>, dgid: byte, counter: nat, fi: byte) {
    && p.Parsed?
    && var f := p.frame;
    && f.srcGateway == f.srcRadio == Padded(callsign, CALLSIGN_LEN)
    && f.dest == Padded([0x41, 0x4C, 0x4C], CALLSIGN_LEN)
    && f.fi == fi && f.eot == (fi == FI_TERM) && f.dt == DT_VD2 && f.dgId == dgid & 0x7F && f.ft == LAST_FN
    && Num(f.counter) == counter % 128 && Num(f.fn) == 0
  }

  function Masks(voice: Voice): Voice {
    [Vd2.Masked(voice[0]), Vd2.Masked(voice[1]), Vd2.Masked(voice[2]), Vd2.Masked(voice[3]), Vd2.Masked(voice[4])]
  }

  lemma HeaderParses(callsign: seq<byte>, dgid: byte)
    ensures CarriesNone(Parse(Header(callsign, dgid)), callsign, dgid, 0, FI_HEADER)
  {
    hide Packet, Parse, Padded, Num;
    FirstCounts();
    SmallFields(0, 0);
    PacketRoundTrip(callsign, callsign, ALL, 0, false, FI_HEADER, 0, LAST_FN, DT_VD2, dgid, EmptyPayload());
  }

  lemma TermParses(callsign: seq<byte>, dgid: byte, n: nat)
    ensures CarriesNone(Parse(Term(callsign, dgid, CounterAt(n))), callsign, dgid, n + 1, FI_TERM)
  {
    hide Packet, Parse, Padded, Num;
    FirstCounts();
    CountersAt(n);
    hide CounterAt;
    SmallFields(CounterAt(n), 0);
    PacketRoundTrip(callsign, callsign, ALL, CounterAt(n), true, FI_TERM, 0, LAST_FN, DT_VD2, dgid, EmptyPayload());
  }

  lemma CommParses(callsign: seq<byte>, dgid: byte, k: nat, voice: Voice)
    ensures CarriesVoice(Parse(Comm(callsign, dgid, CounterAt(k), FnAt(k), voice)), callsign, dgid, k, voice)
  {
    hide Packet, Parse, Padded, Num, Vd2.Payload, Vd2.Frames, Vd2.Masked;
    CountersAt(k);
    hide CounterAt, FnAt;
    SmallFields(CounterAt(k), FnAt(k));
    var payload := Vd2.Payload(voice);
    PacketRoundTrip(callsign, callsign, ALL, CounterAt(k), false, FI_COMM, FnAt(k), LAST_FN, DT_VD2, dgid, payload);
    Vd2.VoiceRoundTrip(voice);
  }

  /** Of any transmission, packet 0 parses as its header, packet k + 1 as voice packet k with frame number k mod 7 and
      counter k + 1 mod 128, and the last as the terminator. */
  lemma TransmissionParses(callsign: seq<byte>, dgid: byte, voice: seq<Voice>)
    ensures var sent := Transmission(callsign, dgid, voice);
            && CarriesNone(Parse(sent[0]), callsign, dgid, 0, FI_HEADER)
            && (forall k :: 0 <= k < |voice| ==> CarriesVoice(Parse(sent[k + 1]), callsign, dgid, k, voice[k]))
            && CarriesNone(Parse(sent[|voice| + 1]), callsign, dgid, |voice| + 1, FI_TERM)
  {
    hide Header, Comm, Term, Parse, CarriesNone, CarriesVoice, CounterAt, FnAt;
    HeaderParses(callsign, dgid);
    TermParses(callsign, dgid, |voice|);
    forall k | 0 <= k < |voice|
      ensures CarriesVoice(Parse(Transmission(callsign, dgid, voice)[k + 1]), callsign, dgid, k, voice[k])
    {
      CommAt(callsign, dgid, voice, k);
      CommParses(callsign, dgid, k, voice[k]);
    }
  }
}
