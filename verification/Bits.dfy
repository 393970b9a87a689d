/** Bits inside byte buffers, most significant bit first (ysf_bridge/ysf_codec.go). */
module Bits {

  type byte = bv8

  const BIT_MASK: seq<byte> := [0x80, 0x40, 0x20, 0x10, 0x08, 0x04, 0x02, 0x01]

  predicate TestBit(x: byte, j: nat)
    requires j < 8
  {
    x & BIT_MASK[j] != 0
  }

  predicate ReadBit(p: seq<byte>, i: nat)
    requires i < 8 * |p|
  {
    TestBit(p[i / 8], i % 8)
  }

  /** The buffer as the sequence of bits that ReadBit sees. */
  function Unpack(p: seq<byte>): (bits: seq<bool>)
    ensures |bits| == 8 * |p|
    ensures forall i :: 0 <= i < 8 * |p| ==> bits[i] == ReadBit(p, i)
  {
    seq(8 * |p|, i requires 0 <= i < 8 * |p| => ReadBit(p, i))
  }

  function PackByte(o: seq<bool>): byte
    requires |o| == 8
  {
    (if o[0] then 0x80 else 0) | (if o[1] then 0x40 else 0) | (if o[2] then 0x20 else 0) | (if o[3] then 0x10 else 0) |
    (if o[4] then 0x08 else 0) | (if o[5] then 0x04 else 0) | (if o[6] then 0x02 else 0) | (if o[7] then 0x01 else 0)
  }

  /** The inverse of Unpack on bit strings that fill whole bytes. */
  function Pack(bits: seq<bool>): (p: seq<byte>)
    requires |bits| % 8 == 0
    ensures |p| == |bits| / 8
  {
    if |bits| == 0 then [] else [PackByte(bits[..8])] + Pack(bits[8..])
  }

  lemma PackByteBits(o: seq<bool>, j: nat)
    requires |o| == 8 && j < 8
    ensures TestBit(PackByte(o), j) == o[j]
  {
    var p := PackByte(o);
    assert (p & 0x80 != 0) == o[0];
    assert (p & 0x40 != 0) == o[1];
    assert (p & 0x20 != 0) == o[2];
    assert (p & 0x10 != 0) == o[3];
    assert (p & 0x08 != 0) == o[4];
    assert (p & 0x04 != 0) == o[5];
    assert (p & 0x02 != 0) == o[6];
    assert (p & 0x01 != 0) == o[7];
  }

  lemma {:induction false} UnpackPack(bits: seq<bool>)
    requires |bits| % 8 == 0
    ensures Unpack(Pack(bits)) == bits
  {
    hide PackByte, TestBit;
    if |bits| != 0 {
      var p, rest := Pack(bits), Pack(bits[8..]);
      UnpackPack(bits[8..]);
      assert p == [PackByte(bits[..8])] + rest;
      forall i | 0 <= i < |bits|
        ensures Unpack(p)[i] == bits[i]
      {
        if i < 8 {
          PackByteBits(bits[..8], i);
        } else {
          assert Unpack(rest)[i - 8] == bits[8..][i - 8];
          assert p[i / 8] == rest[(i - 8) / 8] && i % 8 == (i - 8) % 8;
        }
      }
    }
  }

  /** Bit 0 is worth 128, bit 7 is worth one. */
  lemma ByteIsSumOfBits(x: byte)
    ensures x == (if TestBit(x, 0) then 128 else 0) + (if TestBit(x, 1) then 64 else 0)
                 + (if TestBit(x, 2) then 32 else 0) + (if TestBit(x, 3) then 16 else 0)
                 + (if TestBit(x, 4) then 8 else 0) + (if TestBit(x, 5) then 4 else 0)
                 + (if TestBit(x, 6) then 2 else 0) + (if TestBit(x, 7) then 1 else 0)
  {
    assert BIT_MASK[0] == 0x80 && BIT_MASK[1] == 0x40 && BIT_MASK[2] == 0x20 && BIT_MASK[3] == 0x10;
    assert BIT_MASK[4] == 0x08 && BIT_MASK[5] == 0x04 && BIT_MASK[6] == 0x02 && BIT_MASK[7] == 0x01;
  }

  /** A byte is determined by its eight masked bits. */
  lemma ByteExtensional(x: byte, y: byte)
    requires forall j :: 0 <= j < 8 ==> TestBit(x, j) == TestBit(y, j)
    ensures x == y
  {
    assert (x & 0x80 != 0) == (y & 0x80 != 0) by { assert TestBit(x, 0) == TestBit(y, 0); }
    assert (x & 0x40 != 0) == (y & 0x40 != 0) by { assert TestBit(x, 1) == TestBit(y, 1); }
    assert (x & 0x20 != 0) == (y & 0x20 != 0) by { assert TestBit(x, 2) == TestBit(y, 2); }
    assert (x & 0x10 != 0) == (y & 0x10 != 0) by { assert TestBit(x, 3) == TestBit(y, 3); }
    assert (x & 0x08 != 0) == (y & 0x08 != 0) by { assert TestBit(x, 4) == TestBit(y, 4); }
    assert (x & 0x04 != 0) == (y & 0x04 != 0) by { assert TestBit(x, 5) == TestBit(y, 5); }
    assert (x & 0x02 != 0) == (y & 0x02 != 0) by { assert TestBit(x, 6) == TestBit(y, 6); }
    assert (x & 0x01 != 0) == (y & 0x01 != 0) by { assert TestBit(x, 7) == TestBit(y, 7); }
    MasksDecide(x, y);
  }

  lemma MasksDecide(x: byte, y: byte)
    requires (x & 0x80 != 0) == (y & 0x80 != 0)
    requires (x & 0x40 != 0) == (y & 0x40 != 0)
    requires (x & 0x20 != 0) == (y & 0x20 != 0)
    requires (x & 0x10 != 0) == (y & 0x10 != 0)
    requires (x & 0x08 != 0) == (y & 0x08 != 0)
    requires (x & 0x04 != 0) == (y & 0x04 != 0)
    requires (x & 0x02 != 0) == (y & 0x02 != 0)
    requires (x & 0x01 != 0) == (y & 0x01 != 0)
    ensures x == y
  {
  }

  /** Bytes k of two buffers agree when their eight bits do. */
  lemma SameByte(p: seq<byte>, q: seq<byte>, k: nat)
    requires k < |p| && k < |q|
    requires forall i :: 8 * k <= i < 8 * k + 8 ==> ReadBit(p, i) == ReadBit(q, i)
    ensures p[k] == q[k]
  {
    hide TestBit;
    forall j | 0 <= j < 8
      ensures TestBit(p[k], j) == TestBit(q[k], j)
    {
      var i := 8 * k + j;
      assert i / 8 == k && i % 8 == j;
      assert ReadBit(p, i) == ReadBit(q, i);
    }
    ByteExtensional(p[k], q[k]);
  }

  lemma UnpackInjective(p: seq<byte>, q: seq<byte>)
    requires Unpack(p) == Unpack(q)
    ensures p == q
  {
    assert 8 * |p| == |Unpack(p)| == |Unpack(q)| == 8 * |q|;
    forall k | 0 <= k < |p|
      ensures p[k] == q[k]
    {
      forall i | 8 * k <= i < 8 * k + 8
        ensures ReadBit(p, i) == ReadBit(q, i)
      {
        assert Unpack(p)[i] == Unpack(q)[i];
      }
      SameByte(p, q, k);
    }
  }

  function PutBit(x: byte, j: nat, b: bool): byte
    requires j < 8
  {
    if b then x | BIT_MASK[j] else x & !BIT_MASK[j]
  }

  function Under(x: byte, mask: byte): byte { x & mask }

  lemma MasksApart(m: nat, j: nat)
    requires m < 8 && j < 8
    ensures Under(BIT_MASK[m], BIT_MASK[j]) == 0 <==> m != j
  {
    assert BIT_MASK[0] == 0x80 && BIT_MASK[1] == 0x40 && BIT_MASK[2] == 0x20 && BIT_MASK[3] == 0x10;
    assert BIT_MASK[4] == 0x08 && BIT_MASK[5] == 0x04 && BIT_MASK[6] == 0x02 && BIT_MASK[7] == 0x01;
  }

  lemma MaskDisjoint(x: byte, a: byte, b: byte)
    requires Under(a, b) == 0
    ensures (x | a) & b == x & b
    ensures (x & !a) & b == x & b
  {
  }

  lemma MaskItself(x: byte, a: byte)
    requires Under(a, a) != 0
    ensures (x | a) & a != 0
    ensures (x & !a) & a == 0
  {
  }

  /** Setting bit m of a byte touches no other bit. */
  lemma PutBitTests(x: byte, m: nat, j: nat, b: bool)
    requires m < 8 && j < 8
    ensures TestBit(PutBit(x, m, b), j) == if j == m then b else TestBit(x, j)
  {
    MasksApart(m, j);
    hide BIT_MASK, Under;
    if j == m {
      MaskItself(x, BIT_MASK[m]);
    } else {
      MaskDisjoint(x, BIT_MASK[m], BIT_MASK[j]);
    }
  }

  function SetBit(p: seq<byte>, i: nat, b: bool): seq<byte>
    requires i < 8 * |p|
  {
    p[i / 8 := PutBit(p[i / 8], i % 8, b)]
  }

  lemma SetBitReads(p: seq<byte>, i: nat, b: bool, j: nat)
    requires i < 8 * |p| && j < 8 * |p|
    ensures ReadBit(SetBit(p, i, b), j) == if j == i then b else ReadBit(p, j)
  {
    hide TestBit, PutBit;
    if j / 8 == i / 8 {
      PutBitTests(p[i / 8], i % 8, j % 8, b);
    }
  }

  lemma SetBitUnpacks(p: seq<byte>, i: nat, b: bool)
    requires i < 8 * |p|
    ensures Unpack(SetBit(p, i, b)) == Unpack(p)[i := b]
  {
    hide ReadBit;
    forall j | 0 <= j < 8 * |p|
      ensures Unpack(SetBit(p, i, b))[j] == Unpack(p)[i := b][j]
    {
      SetBitReads(p, i, b, j);
    }
  }

  method WriteBit(p: array<byte>, i: nat, b: bool)
    requires i < 8 * p.Length
    modifies p
    ensures Unpack(p[..]) == old(Unpack(p[..]))[i := b]
  {
    hide ReadBit, PutBit;
    ghost var was := p[..];
    p[i / 8] := PutBit(p[i / 8], i % 8, b);
    assert p[..] == SetBit(was, i, b);
    SetBitUnpacks(was, i, b);
  }

  lemma UnpackConcat(p: seq<byte>, q: seq<byte>)
    ensures Unpack(p + q) == Unpack(p) + Unpack(q)
  {
    hide TestBit;
    forall i | 0 <= i < 8 * |p + q|
      ensures Unpack(p + q)[i] == (Unpack(p) + Unpack(q))[i]
    {
      if i >= 8 * |p| {
        assert (p + q)[i / 8] == q[(i - 8 * |p|) / 8] && i % 8 == (i - 8 * |p|) % 8;
      }
    }
  }

  lemma ZeroBits(p: seq<byte>)
    requires forall k :: 0 <= k < |p| ==> p[k] == 0
    ensures forall q :: 0 <= q < 8 * |p| ==> !Unpack(p)[q]
  {
  }
}
