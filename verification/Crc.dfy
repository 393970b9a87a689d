/** The YSF header check sequence: CRC-CCITT, polynomial 0x1021, initial value 0, complemented output, in the last two
    bytes of a buffer of at least three (ysf_bridge/ysf_codec.go). */
module Crc {
  import opened Bits
  import opened Ccitt

  function Ccitt16(data: seq<byte>): bv16 { Sequence(HighFirst, data) }

  /** The buffer with its last two bytes replaced by the CRC of the bytes before them. */
  function WithCrc(data: seq<byte>): (r: seq<byte>)
    ensures |r| == |data|
  {
    if |data| < 3 then data else WithCheck(HighFirst, data[..|data| - 2])
  }

  predicate Checks(data: seq<byte>) {
    |data| >= 3 && Ccitt.Checks(HighFirst, data)
  }

  // ----- the code --------------------------------------------------------------------------

  method CrcCcitt16(data: seq<byte>) returns (crc: bv16)
    ensures crc == Ccitt16(data)
  {
    hide Feed;
    crc := 0;
    for k := 0 to |data|
      invariant crc == Register(HighFirst, data[..k])
    {
      crc := FeedByte(crc, data[k]);
      assert data[..k + 1][..k] == data[..k];
    }
    assert data[..|data|] == data;
    crc := !crc;
  }

  /** The inner loop of the code: one byte into the register. */
  method FeedByte(register: bv16, b: byte) returns (crc: bv16)
    ensures crc == Feed(HighFirst, register, b)
  {
    hide Step;
    crc := register ^ ((b as bv16) << 8);
    ghost var start := crc;
    for i := 0 to 8
      invariant crc == Steps(HighFirst, start, i)
    {
      crc := ShiftRegister(crc);
    }
  }

  method ShiftRegister(register: bv16) returns (crc: bv16)
    ensures crc == Step(HighFirst, register)
  {
    crc := register;
    if crc & 0x8000 != 0 {
      crc := (crc << 1) ^ 0x1021;
    } else {
      crc := crc << 1;
    }
  }

  method AddCrcCcitt162(data: array<byte>)
    modifies data
    ensures data[..] == WithCrc(old(data[..]))
  {
    hide Sequence, High, Low;
    if data.Length < 3 {
      return;
    }
    var crc := CrcCcitt16(data[..data.Length - 2]);
    ghost var body := data[..data.Length - 2];
    assert body == old(data[..])[..data.Length - 2];
    data[data.Length - 2] := High(crc);
    data[data.Length - 1] := Low(crc);
    assert data[..data.Length - 2] == body;
  }

  method CheckCrcCcitt162(data: seq<byte>) returns (ok: bool)
    ensures ok == Checks(data)
  {
    hide Sequence, High, Low;
    if |data| < 3 {
      return false;
    }
    ghost var body := data[..|data| - 2];
    var crc := CrcCcitt16(data[..|data| - 2]);
    ok := data[|data| - 2] == High(crc) && data[|data| - 1] == Low(crc);
    assert data == body + [data[|data| - 2], data[|data| - 1]];
    if !ok {
      assert WithCheck(HighFirst, body)[|data| - 2] == High(crc) && WithCheck(HighFirst, body)[|data| - 1] == Low(crc);
    }
  }

  // ----- what the check sequence promises ---------------------------------------------------

  /** What was added checks, from three bytes up; shorter buffers are left alone and never accepted. */
  lemma WithCrcChecks(data: seq<byte>)
    ensures Checks(WithCrc(data)) <==> |data| >= 3
  {
    hide Ccitt.Checks, WithCheck;
    if |data| >= 3 {
      WithCheckChecks(HighFirst, data[..|data| - 2]);
    }
  }

  /** A buffer that checks does not check after any change within two neighbouring bytes of it. */
  lemma DetectsBurst(data: seq<byte>, damaged: seq<byte>, i: nat)
    requires Checks(data) && Burst(data, damaged, i)
    ensures Checks(damaged) <==> damaged == data
  {
    hide Ccitt.Checks;
    Ccitt.DetectsBurst(HighFirst, data, damaged, i);
  }
}
