/** The 20-character message that rides in the slow data of a D-STAR stream (xlx_bridge/dcs_protocol.go:33-150). Bytes
    are numbers, so that 0x40 | x for x below 4 is 0x40 + x. */
module SlowData {

  type Byte = b: int | 0 <= b < 256
  type Three = t: seq<Byte> | |t| == 3 witness [0, 0, 0]

  const SUPERFRAME := 21
  const TEXT_LEN := 20
  const SYNC: Three := [0x55, 0x2D, 0x16]
  const FILLER: Three := [0x16, 0x29, 0xF5]
  const SPACE: Byte := 0x20

  // ----- what is sent -----------------------------------------------------------------------

  /** The text cut or padded with spaces to twenty bytes. */
  function Message(text: seq<Byte>): (msg: seq<Byte>)
    ensures |msg| == TEXT_LEN
  {
    if |text| >= TEXT_LEN then text[..TEXT_LEN] else text + seq(TEXT_LEN - |text|, _ => SPACE)
  }

  function HeaderOf(block: nat): Byte
    requires block < 4
  {
    0x40 + (3 - block)
  }

  function FrameOf(msg: seq<Byte>, id: nat): Three
    requires |msg| == TEXT_LEN && id < SUPERFRAME
  {
    if id == 0 then SYNC
    else if id > 8 then FILLER
    else
      var block := (id - 1) / 2;
      if id % 2 == 1 then [HeaderOf(block), msg[5 * block], msg[5 * block + 1]]
      else [msg[5 * block + 2], msg[5 * block + 3], msg[5 * block + 4]]
  }

  method NewSlowDataText(text: seq<Byte>) returns (frames: array<Three>)
    ensures fresh(frames) && frames.Length == SUPERFRAME
    ensures forall id :: 0 <= id < SUPERFRAME ==> frames[id] == FrameOf(Message(text), id)
  {
    var msg := PadText(text);
    hide Message, FrameOf;
    frames := new Three[SUPERFRAME](_ => [0, 0, 0]);
    frames[0] := SYNC;
    SyncFirst(msg);
    for block := 0 to 4
      invariant forall id :: 0 <= id < 1 + 2 * block ==> frames[id] == FrameOf(msg, id)
    {
      var header := 0x40 + (3 - block);
      var t := msg[block * 5..block * 5 + 5];
      var f := 1 + block * 2;
      BlockFrames(msg, block);
      frames[f] := [header, t[0], t[1]];
      frames[f + 1] := [t[2], t[3], t[4]];
    }
    for i := 9 to SUPERFRAME
      invariant forall id :: 0 <= id < i ==> frames[id] == FrameOf(msg, id)
    {
      frames[i] := FILLER;
      FillerLast(msg, i);
    }
  }

  lemma SyncFirst(msg: seq<Byte>)
    requires |msg| == TEXT_LEN
    ensures FrameOf(msg, 0) == SYNC
  {
  }

  lemma BlockFrames(msg: seq<Byte>, block: nat)
    requires |msg| == TEXT_LEN && block < 4
    ensures var t := msg[block * 5..block * 5 + 5];
            FrameOf(msg, 1 + 2 * block) == [0x40 + (3 - block), t[0], t[1]] &&
            FrameOf(msg, 2 + 2 * block) == [t[2], t[3], t[4]]
  {
  }

  lemma FillerLast(msg: seq<Byte>, i: nat)
    requires |msg| == TEXT_LEN && 9 <= i < SUPERFRAME
    ensures FrameOf(msg, i) == FILLER
  {
  }

  method PadText(text: seq<Byte>) returns (msg: seq<Byte>)
    ensures msg == Message(text)
  {
    var buf := new Byte[TEXT_LEN](_ => SPACE);
    var m := if |text| < TEXT_LEN then |text| else TEXT_LEN;
    for i := 0 to m
      invariant forall k :: 0 <= k < i ==> buf[k] == text[k]
      invariant forall k :: i <= k < TEXT_LEN ==> buf[k] == SPACE
    {
      buf[i] := text[i];
    }
    msg := buf[..];
  }

  // ----- what is received -------------------------------------------------------------------

  /** The decoder's fields as a value. */
  datatype Decoded = Decoded(blocks: seq<seq<Byte>>, got: seq<bool>, buf: seq<Byte>, bufPos: nat)

  predicate Shaped(d: Decoded) {
    && |d.blocks| == 4 && (forall k :: 0 <= k < 4 ==> |d.blocks[k]| == 5)
    && |d.got| == 4 && |d.buf| == 6 && d.bufPos < 6
  }

  function Processed(d: Decoded): Decoded
    requires |d.blocks| == 4 && |d.got| == 4 && |d.buf| == 6
  {
    var header := d.buf[0];
    if header < 0x40 || header > 0x43 then d
    else d.(blocks := d.blocks[0x43 - header := d.buf[1..6]], got := d.got[0x43 - header := true])
  }

  function WithByte(d: Decoded, b: Byte): (e: Decoded)
    requires Shaped(d)
    ensures Shaped(e)
  {
    var e := d.(buf := d.buf[d.bufPos := b], bufPos := d.bufPos + 1);
    if e.bufPos == 6 then Processed(e).(bufPos := 0) else e
  }

  function WithFrame(d: Decoded, data: Three, id: nat): (e: Decoded)
    requires Shaped(d)
    ensures Shaped(e)
  {
    if id == 0 then d.(bufPos := 0)
    else if id > 8 then d
    else WithByte(WithByte(WithByte(d, data[0]), data[1]), data[2])
  }

  function TrimRight(s: seq<Byte>): (r: seq<Byte>) {
    if |s| > 0 && (s[|s| - 1] == SPACE || s[|s| - 1] == 0) then TrimRight(s[..|s| - 1]) else s
  }

  /** Empty until all four blocks are there. */
  function TextOf(d: Decoded): seq<Byte>
    requires Shaped(d)
  {
    if d.got == [true, true, true, true] then TrimRight(d.blocks[0] + d.blocks[1] + d.blocks[2] + d.blocks[3]) else []
  }

  class SlowDataDecoder {
    const blocks: array<seq<Byte>>
    const got: array<bool>
    const buf: array<Byte>
    var bufPos: nat

    ghost function Repr(): set<object> { {this, blocks, got, buf} }

    ghost function Value(): Decoded
      reads this, blocks, got, buf
    {
      Decoded(blocks[..], got[..], buf[..], bufPos)
    }

    constructor ()
      ensures Shaped(Value()) && fresh(Repr()) && Value().got == [false, false, false, false] && bufPos == 0
    {
      blocks := new seq<Byte>[4](_ => [0, 0, 0, 0, 0]);
      got := new bool[4](_ => false);
      buf := new Byte[6](_ => 0);
      bufPos := 0;
    }

    /** The blocks and the buffer keep what they held. */
    method Reset()
      requires Shaped(Value())
      modifies Repr()
      ensures Value() == old(Value()).(got := [false, false, false, false], bufPos := 0)
    {
      for i := 0 to 4
        invariant forall k :: 0 <= k < i ==> !got[k]
        invariant blocks[..] == old(blocks[..]) && buf[..] == old(buf[..]) && bufPos == old(bufPos)
      {
        got[i] := false;
      }
      bufPos := 0;
    }

    method Feed(data: Three, frameIndex: nat)
      requires Shaped(Value())
      modifies Repr()
      ensures Value() == WithFrame(old(Value()), data, frameIndex)
    {
      hide WithByte;
      if frameIndex == 0 {
        bufPos := 0;
        return;
      }
      if frameIndex > 8 {
        return;
      }
      FeedByte(data[0]);
      FeedByte(data[1]);
      FeedByte(data[2]);
    }

    /** The body of the loop over the three bytes. */
    method FeedByte(b: Byte)
      requires Shaped(Value())
      modifies Repr()
      ensures Value() == WithByte(old(Value()), b)
    {
      hide Processed;
      if bufPos < 6 {
        buf[bufPos] := b;
        bufPos := bufPos + 1;
      }
      if bufPos == 6 {
        ProcessMiniPacket();
        bufPos := 0;
      }
    }

    method ProcessMiniPacket()
      requires blocks.Length == 4 && got.Length == 4 && buf.Length == 6
      modifies blocks, got
      ensures Value() == Processed(old(Value()))
    {
      var header := buf[0];
      if header < 0x40 || header > 0x43 {
        return;
      }
      var block := 0x43 - header;
      blocks[block] := buf[1..6];
      got[block] := true;
    }

    method Text() returns (text: seq<Byte>)
      requires Shaped(Value())
      ensures text == TextOf(Value())
    {
      for i := 0 to 4
        invariant forall k :: 0 <= k < i ==> got[k]
      {
        if !got[i] {
          return [];
        }
      }
      var msg := [];
      for i := 0 to 4
        invariant msg == Joined(blocks[..], i)
      {
        msg := msg + blocks[i];
      }
      var n := |msg|;
      assert msg[..n] == msg;
      while n > 0 && (msg[n - 1] == SPACE || msg[n - 1] == 0)
        invariant 0 <= n <= |msg| && TrimRight(msg) == TrimRight(msg[..n])
      {
        assert msg[..n][..n - 1] == msg[..n - 1];
        n := n - 1;
      }
      text := msg[..n];
      assert Joined(blocks[..], 4) == blocks[0] + blocks[1] + blocks[2] + blocks[3] by { JoinedFour(blocks[..]); }
    }
  }

  function Joined(blocks: seq<seq<Byte>>, n: nat): seq<Byte>
    requires n <= |blocks|
  {
    if n == 0 then [] else Joined(blocks, n - 1) + blocks[n - 1]
  }

  lemma JoinedFour(b: seq<seq<Byte>>)
    requires |b| == 4
    ensures Joined(b, 4) == b[0] + b[1] + b[2] + b[3]
  {
    assert Joined(b, 4) == Joined(b, 3) + b[3];
    assert Joined(b, 3) == Joined(b, 2) + b[2];
    assert Joined(b, 2) == Joined(b, 1) + b[1];
    assert Joined(b, 1) == b[0];
  }

  // ----- a stream ---------------------------------------------------------------------------

  /** The decoder after the first n frames of a stream that carries msg. */
  function Fed(d: Decoded, msg: seq<Byte>, n: nat): (e: Decoded)
    requires Shaped(d) && |msg| == TEXT_LEN
    ensures Shaped(e)
  {
    if n == 0 then d
    else WithFrame(Fed(d, msg, n - 1), FrameOf(msg, (n - 1) % SUPERFRAME), (n - 1) % SUPERFRAME)
  }

  /** The number of blocks that n frames complete. */
  function Complete(n: nat): (m: nat)
    ensures m <= 4
  {
    if n >= 9 then 4 else if n == 0 then 0 else (n - 1) / 2
  }

  /** The first m blocks of msg are in place, the others as they were. */
  ghost predicate Filled(d: Decoded, msg: seq<Byte>, m: nat, was: Decoded)
    requires Shaped(d) && Shaped(was) && |msg| == TEXT_LEN && m <= 4
  {
    && (forall k :: 0 <= k < 4 ==> d.got[k] == (was.got[k] || k < m))
    && (forall k :: 0 <= k < m ==> d.blocks[k] == msg[5 * k..5 * k + 5])
  }

  /** Before frame p, the second half of a block, its first half is waiting in the buffer. */
  ghost predicate Waiting(d: Decoded, msg: seq<Byte>, p: nat)
    requires Shaped(d) && |msg| == TEXT_LEN && p < SUPERFRAME
  {
    if p == 0 then true
    else if p <= 8 && p % 2 == 0 then d.bufPos == 3 && d.buf[..3] == FrameOf(msg, p - 1)
    else d.bufPos == 0
  }

  ghost predicate Progress(d: Decoded, msg: seq<Byte>, n: nat, was: Decoded)
    requires Shaped(d) && Shaped(was) && |msg| == TEXT_LEN
  {
    Filled(d, msg, Complete(n), was) && Waiting(d, msg, n % SUPERFRAME)
  }

  lemma OddFrame(d: Decoded, msg: seq<Byte>, id: nat)
    requires Shaped(d) && |msg| == TEXT_LEN && id < SUPERFRAME && id <= 8 && id % 2 == 1 && d.bufPos == 0
    ensures var e := WithFrame(d, FrameOf(msg, id), id);
            e == d.(buf := FrameOf(msg, id) + d.buf[3..], bufPos := 3)
  {
    hide FrameOf;
    var t := FrameOf(msg, id);
    var e1 := WithByte(d, t[0]);
    assert e1 == d.(buf := d.buf[0 := t[0]], bufPos := 1);
    var e2 := WithByte(e1, t[1]);
    assert e2 == e1.(buf := e1.buf[1 := t[1]], bufPos := 2);
    var e3 := WithByte(e2, t[2]);
    assert e3 == e2.(buf := e2.buf[2 := t[2]], bufPos := 3);
  }

  lemma EvenFrame(d: Decoded, msg: seq<Byte>, id: nat)
    requires Shaped(d) && |msg| == TEXT_LEN && 2 <= id <= 8 && id % 2 == 0 && d.bufPos == 3
    requires d.buf[..3] == FrameOf(msg, id - 1)
    ensures var e := WithFrame(d, FrameOf(msg, id), id);
            var block := (id - 1) / 2;
            && e.bufPos == 0 && e.got == d.got[block := true]
            && e.blocks == d.blocks[block := msg[5 * block..5 * block + 5]]
  {
    var block := (id - 1) / 2;
    var t := FrameOf(msg, id);
    assert d.buf[0] == d.buf[..3][0] == HeaderOf(block);
    assert d.buf[1] == d.buf[..3][1] && d.buf[2] == d.buf[..3][2];
    var e1 := WithByte(d, t[0]);
    var e2 := WithByte(e1, t[1]);
    assert e2 == d.(buf := d.buf[3 := t[0]][4 := t[1]], bufPos := 5);
    var full := e2.(buf := e2.buf[5 := t[2]], bufPos := 6);
    assert full.buf[1..6] == msg[5 * block..5 * block + 5];
  }

  lemma FilledOneMore(d: Decoded, msg: seq<Byte>, m: nat, was: Decoded, block: nat, e: Decoded)
    requires Shaped(d) && Shaped(e) && Shaped(was) && |msg| == TEXT_LEN && block <= m <= 4 && block < 4
    requires Filled(d, msg, m, was)
    requires e.got == d.got[block := true] && e.blocks == d.blocks[block := msg[5 * block..5 * block + 5]]
    ensures Filled(e, msg, if block == m then m + 1 else m, was)
  {
  }

  lemma Completes(n: nat)
    ensures var id := n % SUPERFRAME;
            && (1 <= id <= 8 && id % 2 == 0 ==> ((id - 1) / 2 <= Complete(n) &&
                  Complete(n + 1) == if (id - 1) / 2 == Complete(n) then Complete(n) + 1 else Complete(n)))
            && (!(1 <= id <= 8 && id % 2 == 0) ==> Complete(n + 1) == Complete(n))
            && (n + 1) % SUPERFRAME == if id == 20 then 0 else id + 1
  {
    if n < SUPERFRAME {
      assert n % SUPERFRAME == n;
    } else {
      assert Complete(n) == 4 && Complete(n + 1) == 4;
    }
  }

  lemma Step(d: Decoded, msg: seq<Byte>, n: nat, was: Decoded)
    requires Shaped(d) && Shaped(was) && |msg| == TEXT_LEN && Progress(d, msg, n, was)
    ensures var id := n % SUPERFRAME; Progress(WithFrame(d, FrameOf(msg, id), id), msg, n + 1, was)
  {
    hide WithByte, FrameOf, Complete;
    var id := n % SUPERFRAME;
    Completes(n);
    if 1 <= id <= 8 && id % 2 == 1 {
      OddFrame(d, msg, id);
      hide WithFrame;
    } else if 1 <= id <= 8 {
      EvenFrame(d, msg, id);
      hide WithFrame, Filled;
      FilledOneMore(d, msg, Complete(n), was, (id - 1) / 2, WithFrame(d, FrameOf(msg, id), id));
    }
  }

  lemma {:induction false} Progresses(d: Decoded, msg: seq<Byte>, n: nat)
    requires Shaped(d) && |msg| == TEXT_LEN
    ensures Progress(Fed(d, msg, n), msg, n, d)
  {
    hide FrameOf, WithFrame, Progress;
    if n == 0 {
      StartsSo(d, msg);
    } else {
      Progresses(d, msg, n - 1);
      Step(Fed(d, msg, n - 1), msg, n - 1, d);
    }
  }

  lemma StartsSo(d: Decoded, msg: seq<Byte>)
    requires Shaped(d) && |msg| == TEXT_LEN
    ensures Progress(d, msg, 0, d)
  {
  }

  /** From the ninth frame on, a decoder in whatever state shows exactly the text that is sent, right-trimmed. One that
      was just reset shows nothing before that. */
  lemma TextArrives(d: Decoded, text: seq<Byte>, n: nat)
    requires Shaped(d)
    ensures n >= 9 ==> TextOf(Fed(d, Message(text), n)) == TrimRight(Message(text))
    ensures n < 9 && d.got == [false, false, false, false] ==> TextOf(Fed(d, Message(text), n)) == []
  {
    hide Fed, TrimRight, Message;
    var msg := Message(text);
    Progresses(d, msg, n);
    var e := Fed(d, msg, n);
    if n >= 9 {
      assert e.got == [true, true, true, true];
      assert msg == msg[0..5] + msg[5..10] + msg[10..15] + msg[15..20];
    } else {
      assert !e.got[3] || d.got[3];
    }
  }

  /** Trimming only takes blanks off: for a text of at most twenty bytes without trailing blanks, what is shown is the
      text itself. */
  lemma {:induction false} ShortTextsArriveWhole(text: seq<Byte>)
    ensures TrimRight(Message(text)) == text <==> |text| <= TEXT_LEN && TrimRight(text) == text
  {
    hide TrimRight;
    if |text| <= TEXT_LEN {
      TrimPadding(text, TEXT_LEN - |text|);
      assert text + seq(0, _ => SPACE) == text;
    } else {
      TrimShortens(Message(text));
    }
  }

  lemma {:induction false} TrimPadding(s: seq<Byte>, n: nat)
    ensures TrimRight(s + seq(n, _ => SPACE)) == TrimRight(s)
  {
    var t := s + seq(n, _ => SPACE);
    if n == 0 {
      assert t == s;
    } else {
      TrimPadding(s, n - 1);
      assert t[..|t| - 1] == s + seq(n - 1, _ => SPACE);
    }
  }

  lemma {:induction false} TrimShortens(s: seq<Byte>)
    ensures |TrimRight(s)| <= |s|
  {
    if |s| > 0 {
      TrimShortens(s[..|s| - 1]);
    }
  }

  // ----- the bytes of a message -------------------------------------------------------------

  /** Character j of the message: that of the text, or a blank behind its end. */
  function CharAt(text: seq<Byte>, j: nat): Byte {
    if j < |text| then text[j] else 32
  }

  /** Block b of five characters follows the header 0x43 - b in frames 2 b + 1 and 2 b + 2; frame 0 is the sync and
      frames 9 to 20 are filler. */
  lemma MessageLayout(text: seq<Byte>, b: nat, j: nat, id: nat)
    requires b < 4 && j < 5 && 9 <= id < 21
    ensures FrameOf(Message(text), 0) == [0x55, 0x2D, 0x16] && FrameOf(Message(text), id) == [0x16, 0x29, 0xF5]
    ensures FrameOf(Message(text), 2 * b + 1)[0] as int == 0x43 - b
    ensures FrameOf(Message(text), 2 * b + 1 + (j + 1) / 3)[(j + 1) % 3] == CharAt(text, 5 * b + j)
  {
    hide FrameOf, Message, CharAt;
    var msg := Message(text);
    MessageAt(text, 5 * b + j);
    BlockFrames(msg, b);
    var t := msg[5 * b..5 * b + 5];
    assert b * 5 == 5 * b && t[j] == msg[5 * b + j];
    FillerFrames(msg, id);
  }

  lemma MessageAt(text: seq<Byte>, k: nat)
    requires k < 20
    ensures Message(text)[k] == CharAt(text, k)
  {
  }

  lemma FillerFrames(msg: seq<Byte>, id: nat)
    requires |msg| == TEXT_LEN && 9 <= id < 21
    ensures FrameOf(msg, 0) == [0x55, 0x2D, 0x16] && FrameOf(msg, id) == [0x16, 0x29, 0xF5]
  {
  }

  predicate Blank(b: Byte) { b == 32 || b == 0 }

  /** Trimming takes off the blanks and nulls at the end, all of them and nothing else. */
  lemma {:induction false} TrimTakesBlanks(s: seq<Byte>)
    ensures var r := TrimRight(s);
            && r <= s && (|r| > 0 ==> !Blank(r[|r| - 1]))
            && forall k :: |r| <= k < |s| ==> Blank(s[k])
  {
    if |s| > 0 && Blank(s[|s| - 1]) {
      TrimTakesBlanks(s[..|s| - 1]);
    }
  }

  /** From the ninth frame on, a decoder in whatever state shows the first twenty characters of the text up to the last
      that is no blank. */
  lemma ShownIsText(d: Decoded, text: seq<Byte>, n: nat)
    requires Shaped(d) && n >= 9
    ensures var shown := TextOf(Fed(d, Message(text), n));
            && |shown| <= 20 && (forall k :: 0 <= k < |shown| ==> shown[k] == CharAt(text, k))
            && (|shown| > 0 ==> !Blank(shown[|shown| - 1]))
            && forall k :: |shown| <= k < 20 ==> Blank(CharAt(text, k))
  {
    TextArrives(d, text, n);
    TrimTakesBlanks(Message(text));
    hide TextOf, Fed, TrimRight;
    var msg, shown := Message(text), TrimRight(Message(text));
    assert forall k :: 0 <= k < 20 ==> msg[k] == CharAt(text, k);
    assert forall k :: 0 <= k < |shown| ==> shown[k] == msg[k];
  }
}
