/** The 155-byte YSF network packet (ysf_bridge/ysf_protocol.go). Strings are byte sequences. */
module Ysfd {
  import opened Bits
  import opened Buffers
  import Fich
  import Crc

  const FRAME_SIZE := 155
  const PAYLOAD_LEN := 90
  const CALLSIGN_LEN := 10
  const SIGNATURE: seq<byte> := [0x59, 0x53, 0x46, 0x44]  // "YSFD"
  const SYNC: seq<byte> := [0xD4, 0x71, 0xC9, 0x63, 0x4D]

  const FI_HEADER: byte := 0
  const FI_COMM: byte := 1
  const FI_TERM: byte := 2
  const DT_VD2: byte := 2
  const FRAMES_PER_SUPER := 7

  datatype VoiceFrame = VoiceFrame(srcGateway: seq<byte>, srcRadio: seq<byte>, dest: seq<byte>,
                                   counter: byte, eot: bool, fi: byte, fn: byte, ft: byte, dt: byte, dgId: byte,
                                   payload: seq<byte>)

  datatype ParseResult = NotYsfd | Parsed(frame: VoiceFrame)

  function CounterByte(counter: byte, eot: bool): byte {
    ((counter & 0x7F) << 1) | if eot then 0x01 else 0
  }

  /** The header fields as the bridge packs them: the VoIP bit is always set, the CRC bytes are still zero. */
  function FichBytes(fi: byte, fn: byte, ft: byte, dt: byte, dgid: byte): (r: seq<byte>)
    ensures |r| == 6
  {
    [(fi & 0x03) << 6, ((fn & 0x07) << 3) | (ft & 0x07), (dt & 0x03) | 0x04, dgid & 0x7F, 0, 0]
  }

  function Head(srcGW: seq<byte>, srcRadio: seq<byte>, dest: seq<byte>, counter: byte, eot: bool): (r: seq<byte>)
    ensures |r| == 40
  {
    SIGNATURE + Padded(srcGW, CALLSIGN_LEN) + Padded(srcRadio, CALLSIGN_LEN) + Padded(dest, CALLSIGN_LEN) +
    [CounterByte(counter, eot)] + SYNC
  }

  function Packet(srcGW: seq<byte>, srcRadio: seq<byte>, dest: seq<byte>, counter: byte, eot: bool,
                  fi: byte, fn: byte, ft: byte, dt: byte, dgid: byte, payload: seq<byte>): (r: seq<byte>)
    requires |payload| == PAYLOAD_LEN
    ensures |r| == FRAME_SIZE
  {
    Head(srcGW, srcRadio, dest, counter, eot) + Fich.Encode(FichBytes(fi, fn, ft, dt, dgid)) + payload
  }

  /** The fields that a six-byte header carries. */
  function WithFich(f: VoiceFrame, fich: seq<byte>): VoiceFrame
    requires |fich| == 6
  {
    f.(fi := (fich[0] >> 6) & 0x03, fn := (fich[1] >> 3) & 0x07, ft := fich[1] & 0x07, dt := fich[2] & 0x03,
       dgId := fich[3] & 0x7F)
  }

  function Parse(data: seq<byte>): ParseResult {
    if |data| < FRAME_SIZE || data[..4] != SIGNATURE then NotYsfd
    else
      var f := VoiceFrame(data[4..14], data[14..24], data[24..34], (data[34] >> 1) & 0x7F, data[34] & 0x01 != 0,
                          0, 0, 0, 0, 0, data[65..155]);
      var air := data[40..65];
      Parsed(if Fich.Accepts(air) then WithFich(f, Fich.Fields(Fich.Decoded(air))) else f)
  }

  // ----- the code ---------------------------------------------------------------------------

  method BuildYsfd(srcGW: seq<byte>, srcRadio: seq<byte>, dest: seq<byte>, counter: byte, eot: bool,
                   fi: byte, fn: byte, ft: byte, dt: byte, dgid: byte, payload: seq<byte>) returns (pkt: array<byte>)
    requires |payload| == PAYLOAD_LEN
    ensures fresh(pkt) && pkt[..] == Packet(srcGW, srcRadio, dest, counter, eot, fi, fn, ft, dt, dgid, payload)
  {
    hide Fich.Encode, Head;
    pkt := new byte[FRAME_SIZE](_ => 0);
    PutHead(pkt, srcGW, srcRadio, dest, counter, eot);
    Fich.EncodeFich(FichBytes(fi, fn, ft, dt, dgid), pkt, 40, 65);
    CopyInto(pkt, 65, payload);
  }

  /** Signature, callsigns, counter and sync. */
  method PutHead(pkt: array<byte>, srcGW: seq<byte>, srcRadio: seq<byte>, dest: seq<byte>, counter: byte, eot: bool)
    requires pkt.Length == FRAME_SIZE
    modifies pkt
    ensures pkt[..40] == Head(srcGW, srcRadio, dest, counter, eot)
  {
    hide Padded;
    CopyInto(pkt, 0, SIGNATURE);
    var gw := PadCallsign(srcGW, CALLSIGN_LEN);
    CopyInto(pkt, 4, gw);
    var radio := PadCallsign(srcRadio, CALLSIGN_LEN);
    CopyInto(pkt, 14, radio);
    var to := PadCallsign(dest, CALLSIGN_LEN);
    CopyInto(pkt, 24, to);
    pkt[34] := CounterByte(counter, eot);
    CopyInto(pkt, 35, SYNC);
  }

  method ParseYsfd(data: seq<byte>) returns (r: ParseResult)
    ensures r == Parse(data)
  {
    hide Fich.Decoded, Fich.Fields, Fich.GolayOk, Crc.Checks;
    if |data| < FRAME_SIZE || data[..4] != SIGNATURE {
      return NotYsfd;
    }
    var f := VoiceFrame(data[4..14], data[14..24], data[24..34], (data[34] >> 1) & 0x7F, data[34] & 0x01 != 0,
                        0, 0, 0, 0, 0, data[65..155]);
    var fich := new byte[6](_ => 0);
    var ok := Fich.DecodeFich(data[40..65], fich);
    if ok {
      assert fich[..] == Fich.Fields(Fich.Decoded(data[40..65]));
      f := WithFich(f, fich[..]);
    }
    return Parsed(f);
  }

  // ----- what comes back --------------------------------------------------------------------

  /** The frame that a receiver should see. */
  function Expected(srcGW: seq<byte>, srcRadio: seq<byte>, dest: seq<byte>, counter: byte, eot: bool,
                    fi: byte, fn: byte, ft: byte, dt: byte, dgid: byte, payload: seq<byte>): VoiceFrame
  {
    VoiceFrame(Padded(srcGW, CALLSIGN_LEN), Padded(srcRadio, CALLSIGN_LEN), Padded(dest, CALLSIGN_LEN),
               counter & 0x7F, eot, fi & 0x03, fn & 0x07, ft & 0x07, dt & 0x03, dgid & 0x7F, payload)
  }

  lemma CounterComesBack(counter: byte, eot: bool)
    ensures (CounterByte(counter, eot) >> 1) & 0x7F == counter & 0x7F
    ensures (CounterByte(counter, eot) & 0x01 != 0) == eot
  {
  }

  lemma FichBits(fi: byte, fn: byte, ft: byte, dt: byte, dgid: byte)
    ensures var b := FichBytes(fi, fn, ft, dt, dgid);
            && (b[0] >> 6) & 0x03 == fi & 0x03
            && (b[1] >> 3) & 0x07 == fn & 0x07 && b[1] & 0x07 == ft & 0x07
            && b[2] & 0x03 == dt & 0x03 && b[3] & 0x7F == dgid & 0x7F
  {
  }

  lemma FieldsComeBack(f: VoiceFrame, fi: byte, fn: byte, ft: byte, dt: byte, dgid: byte, fich: seq<byte>)
    requires |fich| == 6 && fich[..4] == FichBytes(fi, fn, ft, dt, dgid)[..4]
    ensures WithFich(f, fich)
            == f.(fi := fi & 0x03, fn := fn & 0x07, ft := ft & 0x07, dt := dt & 0x03, dgId := dgid & 0x7F)
  {
    FichBits(fi, fn, ft, dt, dgid);
    hide FichBytes;
    var b := FichBytes(fi, fn, ft, dt, dgid);
    assert fich[0] == b[0] && fich[1] == b[1] && fich[2] == b[2] && fich[3] == b[3];
  }

  /** A packet whose header bytes are replaced by some other twenty-five bytes. */
  function WithAir(packet: seq<byte>, air: seq<byte>): seq<byte>
    requires |packet| == FRAME_SIZE && |air| == Fich.FICH_BYTES
  {
    packet[..40] + air + packet[65..]
  }

  lemma Layout(srcGW: seq<byte>, srcRadio: seq<byte>, dest: seq<byte>, counter: byte, eot: bool,
               fi: byte, fn: byte, ft: byte, dt: byte, dgid: byte, payload: seq<byte>, air: seq<byte>)
    requires |payload| == PAYLOAD_LEN && |air| == Fich.FICH_BYTES
    ensures var p := WithAir(Packet(srcGW, srcRadio, dest, counter, eot, fi, fn, ft, dt, dgid, payload), air);
            && |p| == FRAME_SIZE && p[..4] == SIGNATURE
            && p[4..14] == Padded(srcGW, CALLSIGN_LEN) && p[14..24] == Padded(srcRadio, CALLSIGN_LEN)
            && p[24..34] == Padded(dest, CALLSIGN_LEN) && p[34] == CounterByte(counter, eot)
            && p[40..65] == air && p[65..155] == payload
  {
    hide Padded, Fich.Encode, FichBytes, CounterByte;
    var h := Head(srcGW, srcRadio, dest, counter, eot);
    var p := WithAir(Packet(srcGW, srcRadio, dest, counter, eot, fi, fn, ft, dt, dgid, payload), air);
    assert p == h + air + payload;
    assert p[..4] == h[..4] && p[4..14] == h[4..14] && p[14..24] == h[14..24] && p[24..34] == h[24..34];
  }

  /** A packet in which up to three channel bits of the header are inverted still parses: with the header fields that
      were sent, or, only when two or three bits are wrong, with all of them zero. Everything else comes back. */
  lemma DamagedPacketParses(srcGW: seq<byte>, srcRadio: seq<byte>, dest: seq<byte>, counter: byte, eot: bool,
                            fi: byte, fn: byte, ft: byte, dt: byte, dgid: byte, payload: seq<byte>,
                            flips: set<nat>, air: seq<byte>)
    requires |payload| == PAYLOAD_LEN
    requires Fich.Damaged(Fich.Encode(FichBytes(fi, fn, ft, dt, dgid)), flips, air) && |flips| <= 3
    ensures var p := WithAir(Packet(srcGW, srcRadio, dest, counter, eot, fi, fn, ft, dt, dgid, payload), air);
            var f := Expected(srcGW, srcRadio, dest, counter, eot, fi, fn, ft, dt, dgid, payload);
            && (Parse(p) == Parsed(f) || Parse(p) == Parsed(f.(fi := 0, fn := 0, ft := 0, dt := 0, dgId := 0)))
            && (|flips| <= 1 ==> Parse(p) == Parsed(f))
  {
    hide Fich.Damaged, Fich.Encode, Fich.Accepts, Fich.Decoded, Fich.Fields, Packet, WithAir, Padded, CounterByte;
    hide FichBytes, WithFich;
    Layout(srcGW, srcRadio, dest, counter, eot, fi, fn, ft, dt, dgid, payload, air);
    CounterComesBack(counter, eot);
    var f := VoiceFrame(Padded(srcGW, CALLSIGN_LEN), Padded(srcRadio, CALLSIGN_LEN), Padded(dest, CALLSIGN_LEN),
                        counter & 0x7F, eot, 0, 0, 0, 0, 0, payload);
    DamagedHeaderReads(f, fi, fn, ft, dt, dgid, flips, air);
  }

  lemma DamagedHeaderReads(f: VoiceFrame, fi: byte, fn: byte, ft: byte, dt: byte, dgid: byte, flips: set<nat>,
                           air: seq<byte>)
    requires Fich.Damaged(Fich.Encode(FichBytes(fi, fn, ft, dt, dgid)), flips, air) && |flips| <= 3
    ensures |flips| <= 1 ==> Fich.Accepts(air)
    ensures Fich.Accepts(air) ==>
              WithFich(f, Fich.Fields(Fich.Decoded(air)))
              == f.(fi := fi & 0x03, fn := fn & 0x07, ft := ft & 0x07, dt := dt & 0x03, dgId := dgid & 0x7F)
  {
    hide Fich.Damaged, Fich.Encode, Fich.GolayOk, Fich.Decoded, Fich.Fields, Crc.Checks, FichBytes, WithFich;
    var fich := FichBytes(fi, fn, ft, dt, dgid);
    Fich.DamageRepairedOrNoticed(fich, flips, air);
    if Fich.Accepts(air) {
      CheckedKeepsFields(fich);
      FieldsComeBack(f, fi, fn, ft, dt, dgid, Fich.Fields(Fich.Decoded(air)));
    }
  }

  lemma CheckedKeepsFields(fich: seq<byte>)
    requires |fich| == 6
    ensures Fich.Checked(fich)[..4] == fich[..4]
  {
  }

  /** Every packet parses back to what it was built from, each field cut to its width. */
  lemma PacketRoundTrip(srcGW: seq<byte>, srcRadio: seq<byte>, dest: seq<byte>, counter: byte, eot: bool,
                        fi: byte, fn: byte, ft: byte, dt: byte, dgid: byte, payload: seq<byte>)
    requires |payload| == PAYLOAD_LEN
    ensures Parse(Packet(srcGW, srcRadio, dest, counter, eot, fi, fn, ft, dt, dgid, payload))
            == Parsed(Expected(srcGW, srcRadio, dest, counter, eot, fi, fn, ft, dt, dgid, payload))
  {
    hide Fich.Encode, Expected, Head, Parse;
    var air := Fich.Encode(FichBytes(fi, fn, ft, dt, dgid));
    var p := Packet(srcGW, srcRadio, dest, counter, eot, fi, fn, ft, dt, dgid, payload);
    assert WithAir(p, air) == p;
    DamagedPacketParses(srcGW, srcRadio, dest, counter, eot, fi, fn, ft, dt, dgid, payload, {}, air);
  }
}
