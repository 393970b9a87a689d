/** Fixed byte buffers and the callsign fields in them, as several bridges write them. */
module Buffers {
  import opened Bits

  const SPACE: byte := 0x20

  /** A callsign cut or padded with spaces to n bytes. */
  function Padded(cs: seq<byte>, n: nat): (r: seq<byte>)
    ensures |r| == n
  {
    if |cs| >= n then cs[..n] else cs + seq(n - |cs|, _ => SPACE)
  }

  /** copy(pkt[at:], src) for a source that fits. */
  method CopyInto(pkt: array<byte>, at: nat, src: seq<byte>)
    requires at + |src| <= pkt.Length
    modifies pkt
    ensures pkt[..] == old(pkt[..at]) + src + old(pkt[at + |src|..])
  {
    for i := 0 to |src|
      invariant pkt[..at] == old(pkt[..at]) && pkt[at..at + i] == src[..i] && pkt[at + i..] == old(pkt[at + i..])
    {
      pkt[at + i] := src[i];
    }
    assert pkt[..] == pkt[..at] + pkt[at..at + |src|] + pkt[at + |src|..];
  }

  method PadCallsign(cs: seq<byte>, n: nat) returns (b: seq<byte>)
    ensures b == Padded(cs, n)
  {
    var buf := new byte[n];
    for i := 0 to n
      invariant forall k :: 0 <= k < i ==> buf[k] == SPACE
    {
      buf[i] := SPACE;
    }
    var m := if |cs| < n then |cs| else n;
    for i := 0 to m
      invariant forall k :: 0 <= k < i ==> buf[k] == cs[k]
      invariant forall k :: i <= k < n ==> buf[k] == SPACE
    {
      buf[i] := cs[i];
    }
    b := buf[..];
  }
}
