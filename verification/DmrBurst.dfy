/** The 264-bit DMR burst: three AMBE frames spread bit by bit around a 48-bit sync field
    (dmr_bridge/dmr_protocol.go:58-164). */
module DmrBurst {
  import opened Bits

  const AMBE_BYTES := 9
  const SYNC_BYTES := 6
  const BURST_BYTES := 33
  const AMBE_BITS := 216
  const HALF := 108
  const SYNC_BITS := 48

  type Ambe = f: seq<byte> | |f| == AMBE_BYTES witness SILENCE
  type Sync = s: seq<byte> | |s| == SYNC_BYTES witness NULL_SYNC
  type Triple = t: seq<Ambe> | |t| == 3 witness [SILENCE, SILENCE, SILENCE]

  const SILENCE: seq<byte> := [0xB9, 0xE8, 0x81, 0x48, 0x00, 0x00, 0x00, 0x00, 0x00]
  const NULL_SYNC: seq<byte> := [0, 0, 0, 0, 0, 0]
  /** The first six of the seven bytes of the voice sync pattern. */
  const VOICE_SYNC: seq<byte> := [0x07, 0x55, 0xFD, 0x7D, 0xF7, 0x5F]

  // ----- where the bits go ------------------------------------------------------------------

  /** Bit i of the three frames, taken turn by turn. */
  predicate AmbeBit(frames: Triple, i: nat)
    requires i < AMBE_BITS
  {
    ReadBit(frames[i % 3], i / 3)
  }

  /** The place in the burst of AMBE bit i. */
  function Place(i: nat): (p: nat)
    requires i < AMBE_BITS
    ensures p < 8 * BURST_BYTES
  {
    if i < HALF then i else i + SYNC_BITS
  }

  predicate BurstBit(frames: Triple, sync: Sync, p: nat)
    requires p < 8 * BURST_BYTES
  {
    if p < HALF then AmbeBit(frames, p)
    else if p < HALF + SYNC_BITS then ReadBit(sync, p - HALF)
    else AmbeBit(frames, p - SYNC_BITS)
  }

  function BurstBits(frames: Triple, sync: Sync): seq<bool> {
    seq(8 * BURST_BYTES, p requires 0 <= p < 8 * BURST_BYTES => BurstBit(frames, sync, p))
  }

  function Burst(frames: Triple, sync: Sync): (burst: seq<byte>)
    ensures |burst| == BURST_BYTES
  {
    Pack(BurstBits(frames, sync))
  }

  function FrameBits(burst: seq<byte>, f: nat): (bits: seq<bool>)
    requires |burst| == BURST_BYTES && f < 3
    ensures |bits| == 72
  {
    seq(72, b requires 0 <= b < 72 => ReadBit(burst, Place(3 * b + f)))
  }

  function Frames(burst: seq<byte>): Triple
    requires |burst| == BURST_BYTES
  {
    [Pack(FrameBits(burst, 0)), Pack(FrameBits(burst, 1)), Pack(FrameBits(burst, 2))]
  }

  /** The 48 bits in the middle. */
  function SyncOf(burst: seq<byte>): Sync
    requires |burst| == BURST_BYTES
  {
    Pack(Unpack(burst)[HALF..HALF + SYNC_BITS])
  }

  // ----- the code ---------------------------------------------------------------------------

  method DeinterleaveDMR(burst: seq<byte>) returns (frames: Triple)
    requires |burst| == BURST_BYTES
    ensures frames == Frames(burst)
  {
    hide ReadBit, Pack;
    var bits := new bool[8 * BURST_BYTES];
    for i := 0 to 8 * BURST_BYTES
      invariant forall k :: 0 <= k < i ==> bits[k] == ReadBit(burst, k)
    {
      bits[i] := ReadBit(burst, i);
    }
    var ambe := new bool[AMBE_BITS];
    for i := 0 to HALF
      invariant forall k :: 0 <= k < 8 * BURST_BYTES ==> bits[k] == ReadBit(burst, k)
      invariant forall k :: 0 <= k < i ==> ambe[k] == ReadBit(burst, Place(k))
    {
      ambe[i] := bits[i];
    }
    for i := HALF to AMBE_BITS
      invariant forall k :: 0 <= k < 8 * BURST_BYTES ==> bits[k] == ReadBit(burst, k)
      invariant forall k :: 0 <= k < i ==> ambe[k] == ReadBit(burst, Place(k))
    {
      ambe[i] := bits[i + SYNC_BITS];
    }
    var f0, f1, f2 := Scatter(ambe[..]);
    FrameIs(burst, 0, f0);
    FrameIs(burst, 1, f1);
    FrameIs(burst, 2, f2);
    frames := [f0, f1, f2];
  }

  lemma FrameIs(burst: seq<byte>, f: nat, frame: Ambe)
    requires |burst| == BURST_BYTES && f < 3
    requires forall b :: 0 <= b < 72 ==> Unpack(frame)[b] == ReadBit(burst, Place(3 * b + f))
    ensures frame == Pack(FrameBits(burst, f))
  {
    hide ReadBit, Pack, Place;
    assert Unpack(frame) == FrameBits(burst, f);
    UnpackPack(FrameBits(burst, f));
    UnpackInjective(frame, Pack(FrameBits(burst, f)));
  }

  /** The loop that deals the AMBE bits out to the frames, which start as zeros. */
  method Scatter(ambe: seq<bool>) returns (f0: Ambe, f1: Ambe, f2: Ambe)
    requires |ambe| == AMBE_BITS
    ensures forall b :: 0 <= b < 72 ==>
              Unpack(f0)[b] == ambe[3 * b] && Unpack(f1)[b] == ambe[3 * b + 1] && Unpack(f2)[b] == ambe[3 * b + 2]
  {
    var a := new byte[AMBE_BYTES](_ => 0);
    var b := new byte[AMBE_BYTES](_ => 0);
    var c := new byte[AMBE_BYTES](_ => 0);
    ZeroBits(a[..]);
    ZeroBits(b[..]);
    ZeroBits(c[..]);
    hide ReadBit;
    hide Dealt;
    NoneDealt(a[..], ambe, 0);
    NoneDealt(b[..], ambe, 1);
    NoneDealt(c[..], ambe, 2);
    for i := 0 to AMBE_BITS
      invariant Dealt(Unpack(a[..]), ambe, i, 0) && Dealt(Unpack(b[..]), ambe, i, 1) && Dealt(Unpack(c[..]), ambe, i, 2)
    {
      Deal(a, ambe, i, 0);
      Deal(b, ambe, i, 1);
      Deal(c, ambe, i, 2);
    }
    f0, f1, f2 := a[..], b[..], c[..];
    AllDealt(f0, ambe, 0);
    AllDealt(f1, ambe, 1);
    AllDealt(f2, ambe, 2);
  }

  /** AMBE bit i, if it is frame f's turn. */
  method Deal(frame: array<byte>, ambe: seq<bool>, i: nat, f: nat)
    requires frame.Length == AMBE_BYTES && |ambe| == AMBE_BITS && i < AMBE_BITS && f < 3
    requires Dealt(Unpack(frame[..]), ambe, i, f)
    modifies frame
    ensures Dealt(Unpack(frame[..]), ambe, i + 1, f)
  {
    hide ReadBit;
    if i % 3 == f {
      assert i == 3 * (i / 3) + f;
      if ambe[i] {
        WriteBit(frame, i / 3, true);
      }
    }
  }

  lemma NoneDealt(frame: seq<byte>, ambe: seq<bool>, f: nat)
    requires |frame| == AMBE_BYTES && |ambe| == AMBE_BITS && f < 3
    requires forall q :: 0 <= q < 72 ==> !Unpack(frame)[q]
    ensures Dealt(Unpack(frame), ambe, 0, f)
  {
  }

  lemma AllDealt(frame: seq<byte>, ambe: seq<bool>, f: nat)
    requires |frame| == AMBE_BYTES && |ambe| == AMBE_BITS && f < 3
    requires Dealt(Unpack(frame), ambe, AMBE_BITS, f)
    ensures forall b :: 0 <= b < 72 ==> Unpack(frame)[b] == ambe[3 * b + f]
  {
  }

  /** Frame f has its share of the first i bits and zeros elsewhere. */
  predicate Dealt(bits: seq<bool>, ambe: seq<bool>, i: nat, f: nat)
    requires |bits| == 72 && |ambe| == AMBE_BITS && f < 3
  {
    forall b :: 0 <= b < 72 ==> bits[b] == (3 * b + f < i && ambe[3 * b + f])
  }

  method InterleaveDMR(frames: Triple, syncData: Sync) returns (burst: seq<byte>)
    ensures burst == Burst(frames, syncData)
  {
    hide ReadBit, Pack;
    var ambe := new bool[AMBE_BITS];
    for i := 0 to AMBE_BITS
      invariant forall k :: 0 <= k < i ==> ambe[k] == AmbeBit(frames, k)
    {
      ambe[i] := ReadBit(frames[i % 3], i / 3);
    }
    hide AmbeBit;
    var bits := new bool[8 * BURST_BYTES];
    for i := 0 to HALF
      invariant forall k :: 0 <= k < AMBE_BITS ==> ambe[k] == AmbeBit(frames, k)
      invariant forall k :: 0 <= k < i ==> bits[k] == BurstBit(frames, syncData, k)
    {
      bits[i] := ambe[i];
    }
    for i := 0 to SYNC_BITS
      invariant forall k :: 0 <= k < AMBE_BITS ==> ambe[k] == AmbeBit(frames, k)
      invariant forall k :: 0 <= k < HALF + i ==> bits[k] == BurstBit(frames, syncData, k)
    {
      bits[HALF + i] := ReadBit(syncData, i);
    }
    for i := HALF to AMBE_BITS
      invariant forall k :: 0 <= k < AMBE_BITS ==> ambe[k] == AmbeBit(frames, k)
      invariant forall k :: 0 <= k < i + SYNC_BITS ==> bits[k] == BurstBit(frames, syncData, k)
    {
      bits[i + SYNC_BITS] := ambe[i];
    }
    assert bits[..] == BurstBits(frames, syncData);
    burst := PackBits(bits[..]);
  }

  method PackBits(bits: seq<bool>) returns (burst: seq<byte>)
    requires |bits| == 8 * BURST_BYTES
    ensures burst == Pack(bits)
  {
    var buf := new byte[BURST_BYTES](_ => 0);
    ZeroBits(buf[..]);
    hide ReadBit, Pack;
    for i := 0 to 8 * BURST_BYTES
      invariant forall k :: 0 <= k < i ==> Unpack(buf[..])[k] == bits[k]
      invariant forall k :: i <= k < 8 * BURST_BYTES ==> !Unpack(buf[..])[k]
    {
      if bits[i] {
        WriteBit(buf, i, true);
      }
    }
    burst := buf[..];
    UnpackPack(bits);
    assert Unpack(burst) == bits;
    UnpackInjective(burst, Pack(bits));
  }

  /** Burst A carries the voice sync, the other five a null field. */
  function SyncFor(burstIndex: nat): Sync {
    if burstIndex == 0 then VOICE_SYNC else NULL_SYNC
  }

  method BuildAMBEPayload(frames: Triple, burstIndex: nat) returns (burst: seq<byte>)
    ensures burst == Burst(frames, SyncFor(burstIndex))
  {
    var syncData := NULL_SYNC;
    if burstIndex == 0 {
      syncData := VOICE_SYNC;
    }
    burst := InterleaveDMR(frames, syncData);
  }

  // ----- it is a bijection ------------------------------------------------------------------

  /** Whatever sync field travels along, the three frames come back. */
  lemma FramesComeBack(frames: Triple, sync: Sync)
    ensures Frames(Burst(frames, sync)) == frames
  {
    hide ReadBit, Pack, Burst, FrameBits;
    FrameComesBack(frames, sync, 0);
    FrameComesBack(frames, sync, 1);
    FrameComesBack(frames, sync, 2);
  }

  lemma FrameComesBack(frames: Triple, sync: Sync, f: nat)
    requires f < 3
    ensures Pack(FrameBits(Burst(frames, sync), f)) == frames[f]
  {
    hide ReadBit, Pack;
    var burst := Burst(frames, sync);
    UnpackPack(BurstBits(frames, sync));
    forall b | 0 <= b < 72
      ensures Unpack(frames[f])[b] == ReadBit(burst, Place(3 * b + f))
    {
      var i := 3 * b + f;
      assert i % 3 == f && i / 3 == b;
      assert Unpack(burst)[Place(i)] == BurstBits(frames, sync)[Place(i)] == AmbeBit(frames, i);
    }
    FrameIs(burst, f, frames[f]);
  }

  /** Interleaving what was taken out of a burst, around its own sync field, gives the burst again. */
  lemma BurstComesBack(burst: seq<byte>)
    requires |burst| == BURST_BYTES
    ensures Burst(Frames(burst), SyncOf(burst)) == burst
  {
    hide ReadBit, Pack;
    var frames, sync := Frames(burst), SyncOf(burst);
    UnpackPack(FrameBits(burst, 0));
    UnpackPack(FrameBits(burst, 1));
    UnpackPack(FrameBits(burst, 2));
    UnpackPack(Unpack(burst)[HALF..HALF + SYNC_BITS]);
    forall i | 0 <= i < AMBE_BITS
      ensures AmbeBit(frames, i) == ReadBit(burst, Place(i))
    {
      assert i == 3 * (i / 3) + i % 3;
      assert Unpack(frames[i % 3])[i / 3] == FrameBits(burst, i % 3)[i / 3];
    }
    forall p | 0 <= p < 8 * BURST_BYTES
      ensures Unpack(burst)[p] == BurstBits(frames, sync)[p]
    {
      if p < HALF {
        assert Place(p) == p;
      } else if p < HALF + SYNC_BITS {
        assert Unpack(sync)[p - HALF] == Unpack(burst)[HALF..HALF + SYNC_BITS][p - HALF];
      } else {
        assert Place(p - SYNC_BITS) == p;
      }
    }
    UnpackPack(BurstBits(frames, sync));
    UnpackInjective(Burst(frames, sync), burst);
  }
}
