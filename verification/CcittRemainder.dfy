/** What a CRC-CCITT check sequence is, said without its register: the complement of the remainder that polynomial
    division by x^16 + x^12 + x^5 + 1 leaves (ysf_bridge/ysf_codec.go:200-233, xlx_bridge/dextra_protocol.go:149-162).
    A polynomial over GF(2) is the list of its coefficients, highest first. */
module CcittRemainder {
  import opened Bits
  import opened Ccitt
  import Crc
  import Dextra

  /** x^16 + x^12 + x^5 + 1. */
  const GENERATOR: seq<bool> := [
    true, false, false, false, true, false, false, false, false, false, false, true, false, false, false, false, true
  ]

  function Zeros(n: nat): (r: seq<bool>)
    ensures |r| == n
  {
    seq(n, _ => false)
  }

  function Ones(n: nat): (r: seq<bool>)
    ensures |r| == n
  {
    seq(n, _ => true)
  }

  function Plus(p: seq<bool>, q: seq<bool>): (r: seq<bool>)
    requires |p| == |q|
    ensures |r| == |p|
  {
    seq(|p|, i requires 0 <= i < |p| => p[i] != q[i])
  }

  /** Multiples of the generator: the product with q, by Horner's rule. */
  function Product(q: seq<bool>): (r: seq<bool>)
    ensures |r| == |q| + 16
  {
    if |q| == 0 then Zeros(16)
    else
      var k := |q| - 1;
      var shifted := Product(q[..k]) + [false];
      if q[k] then Plus(shifted, Zeros(k) + GENERATOR) else shifted
  }

  /** p divided by the generator is q, remainder r. */
  predicate Divides(p: seq<bool>, q: seq<bool>, r: seq<bool>) {
    |r| == 16 && |p| == |q| + 16 && p == Plus(Product(q), Zeros(|q|) + r)
  }

  // ----- division is well defined -----------------------------------------------------------

  lemma {:induction false} ProductFirst(q: seq<bool>, i: nat)
    requires i < |q| && q[i] && forall j :: 0 <= j < i ==> !q[j]
    ensures Product(q)[i] && forall j :: 0 <= j < i ==> !Product(q)[j]
    decreases |q|
  {
    var k := |q| - 1;
    if i < k {
      ProductFirst(q[..k], i);
    } else {
      ProductOfZeros(q[..k]);
    }
  }

  lemma {:induction false} ProductOfZeros(q: seq<bool>)
    requires forall j :: 0 <= j < |q| ==> !q[j]
    ensures Product(q) == Zeros(|q| + 16)
    decreases |q|
  {
    if |q| > 0 {
      ProductOfZeros(q[..|q| - 1]);
    }
  }

  lemma {:induction false} ProductAdds(p: seq<bool>, q: seq<bool>)
    requires |p| == |q|
    ensures Product(Plus(p, q)) == Plus(Product(p), Product(q))
    decreases |p|
  {
    if |p| > 0 {
      var k := |p| - 1;
      ProductAdds(p[..k], q[..k]);
      assert Plus(p, q)[..k] == Plus(p[..k], q[..k]);
      hide Product;
      OneTerm(Product(p[..k]), Product(q[..k]), p[k], q[k], k);
      ProductStep(p);
      ProductStep(q);
      ProductStep(Plus(p, q));
    }
  }

  function WithTerm(shifted: seq<bool>, b: bool, k: nat): (r: seq<bool>)
    requires |shifted| == k + 17
    ensures |r| == k + 17
  {
    if b then Plus(shifted, Zeros(k) + GENERATOR) else shifted
  }

  lemma ProductStep(q: seq<bool>)
    requires |q| > 0
    ensures var k := |q| - 1; Product(q) == WithTerm(Product(q[..k]) + [false], q[k], k)
  {
  }

  lemma OneTerm(p: seq<bool>, q: seq<bool>, a: bool, b: bool, k: nat)
    requires |p| == |q| == k + 16
    ensures WithTerm(Plus(p, q) + [false], a != b, k) == Plus(WithTerm(p + [false], a, k), WithTerm(q + [false], b, k))
  {
    hide GENERATOR;
    assert |GENERATOR| == 17 by { SeventeenTerms(); }
  }

  lemma SeventeenTerms()
    ensures |GENERATOR| == 17
  {
  }

  /** Quotient and remainder are unique. */
  lemma DivisionIsUnique(p: seq<bool>, q: seq<bool>, r: seq<bool>, q': seq<bool>, r': seq<bool>)
    requires Divides(p, q, r) && Divides(p, q', r')
    ensures q == q' && r == r'
  {
    hide Product;
    var n := |q|;
    var d := Plus(q, q');
    ProductAdds(q, q');
    assert forall i :: 0 <= i < n ==> Product(q)[i] == p[i] == Product(q')[i] by {
      forall i | 0 <= i < n
        ensures Product(q)[i] == p[i] == Product(q')[i]
      {
        assert p[i] == (Product(q)[i] != (Zeros(n) + r)[i]);
        assert p[i] == (Product(q')[i] != (Zeros(n) + r')[i]);
      }
    }
    if i :| 0 <= i < n && d[i] {
      var m := FirstSet(d, i);
      ProductFirst(d, m);
      assert false;
    }
    assert q == q' by {
      forall i | 0 <= i < n ensures q[i] == q'[i] {
        assert !d[i];
      }
    }
    forall i | 0 <= i < 16 ensures r[i] == r'[i] {
      assert p[n + i] == (Product(q)[n + i] != (Zeros(n) + r)[n + i]);
      assert p[n + i] == (Product(q)[n + i] != (Zeros(n) + r')[n + i]);
    }
  }

  lemma {:induction false} FirstSet(d: seq<bool>, i: nat) returns (m: nat)
    requires i < |d| && d[i]
    ensures m <= i && d[m] && forall j :: 0 <= j < m ==> !d[j]
  {
    if j :| 0 <= j < i && d[j] {
      m := FirstSet(d, j);
    } else {
      m := i;
    }
  }

  // ----- the register divides ---------------------------------------------------------------

  /** The eight bits of a byte in the order in which they are fed, and the sixteen of a register from the one that falls
      out next. */
  function ByteBits(o: Order, b: byte): (r: seq<bool>)
    ensures |r| == 8
  {
    match o
    case HighFirst => [b & 0x80 != 0, b & 0x40 != 0, b & 0x20 != 0, b & 0x10 != 0,
                       b & 0x08 != 0, b & 0x04 != 0, b & 0x02 != 0, b & 0x01 != 0]
    case LowFirst => [b & 0x01 != 0, b & 0x02 != 0, b & 0x04 != 0, b & 0x08 != 0,
                      b & 0x10 != 0, b & 0x20 != 0, b & 0x40 != 0, b & 0x80 != 0]
  }

  function DataBits(o: Order, data: seq<byte>): (r: seq<bool>)
    ensures |r| == 8 * |data|
    decreases |data|
  {
    if |data| == 0 then [] else DataBits(o, data[..|data| - 1]) + ByteBits(o, data[|data| - 1])
  }

  /** What falls out of the register in the next n moves. */
  function Falling(o: Order, c: bv16, n: nat): (r: seq<bool>)
    ensures |r| == n
    decreases n
  {
    if n == 0 then [] else [Out(o, c)] + Falling(o, Moved(o, c), n - 1)
  }

  function RegisterBits(o: Order, c: bv16): (r: seq<bool>)
    ensures |r| == 16
  {
    Falling(o, c, 16)
  }

  function Shifted(r: seq<bool>): (t: seq<bool>)
    requires |r| == 16
    ensures |t| == 16
  {
    if r[0] then Plus(r[1..] + [false], GENERATOR[1..]) else r[1..] + [false]
  }

  lemma DividesShifts(p: seq<bool>, q: seq<bool>, r: seq<bool>)
    requires Divides(p, q, r)
    ensures Divides(p + [false], q + [r[0]], Shifted(r))
  {
    hide Product;
    var n, q' := |q|, q + [r[0]];
    ProductStep(q');
    assert q'[..n] == q;
    var lhs, rhs := p + [false], Plus(Product(q'), Zeros(n + 1) + Shifted(r));
    forall i | 0 <= i < n + 17
      ensures lhs[i] == rhs[i]
    {
      if i < n + 16 {
        assert p[i] == (Product(q)[i] != (Zeros(n) + r)[i]);
      }
    }
  }

  lemma DividesAdds(p: seq<bool>, q: seq<bool>, r: seq<bool>, w: seq<bool>)
    requires Divides(p, q, r) && |w| == 16
    ensures Divides(Plus(p, Zeros(|q|) + w), q, Plus(r, w))
  {
    hide Product;
    forall i | 0 <= i < |p|
      ensures Plus(p, Zeros(|q|) + w)[i] == Plus(Product(q), Zeros(|q|) + Plus(r, w))[i]
    {
      assert p[i] == (Product(q)[i] != (Zeros(|q|) + r)[i]);
    }
  }

  lemma {:induction false} FallingAdds(o: Order, c: bv16, d: bv16, n: nat)
    ensures Falling(o, Xor(c, d), n) == Plus(Falling(o, c, n), Falling(o, d, n))
    decreases n
  {
    hide Xor, Out, Moved;
    if n > 0 {
      OutXor(o, c, d);
      MovedXor(o, c, d);
      FallingAdds(o, Moved(o, c), Moved(o, d), n - 1);
    }
  }

  function Moves(o: Order, c: bv16, n: nat): bv16
    decreases n
  {
    if n == 0 then c else Moves(o, Moved(o, c), n - 1)
  }

  lemma {:induction false} FallingAt(o: Order, c: bv16, n: nat, i: nat)
    requires i < n
    ensures Falling(o, c, n)[i] == Out(o, Moves(o, c, i))
    decreases n
  {
    hide Out, Moved;
    if i > 0 {
      FallingAt(o, Moved(o, c), n - 1, i - 1);
    }
  }

  /** After sixteen moves nothing is left. */
  lemma SixteenMoves(o: Order, c: bv16)
    ensures Moves(o, c, 16) == 0
  {
    EightMoves(o, c);
    EightMoves(o, Moves(o, c, 8));
    MovesAdd(o, c, 8, 8);
    hide Moves;
    match o
    case HighFirst => assert (c << 8) << 8 == 0;
    case LowFirst => assert (c >> 8) >> 8 == 0;
  }

  lemma EightMoves(o: Order, c: bv16)
    ensures Moves(o, c, 8) == match o case HighFirst => c << 8 case LowFirst => c >> 8
  {
    UnfoldEight(o, c);
    hide Moves;
    match o
    case HighFirst =>
    case LowFirst =>
  }

  lemma UnfoldEight(o: Order, c: bv16)
    ensures Moves(o, c, 8)
            == Moved(o, Moved(o, Moved(o, Moved(o, Moved(o, Moved(o, Moved(o, Moved(o, c))))))))
  {
    hide Moved;
    MovesAdd(o, c, 1, 7);
    var d := Moved(o, c);
    MovesAdd(o, d, 1, 6);
    var e := Moved(o, d);
    MovesAdd(o, e, 1, 5);
    var f := Moved(o, e);
    MovesAdd(o, f, 1, 4);
    var g := Moved(o, f);
    MovesAdd(o, g, 1, 3);
  }

  lemma {:induction false} MovesAdd(o: Order, c: bv16, m: nat, n: nat)
    ensures Moves(o, c, m + n) == Moves(o, Moves(o, c, m), n)
    decreases m
  {
    hide Moved;
    if m > 0 {
      MovesAdd(o, Moved(o, c), m - 1, n);
    }
  }

  lemma FallingMoves(o: Order, c: bv16)
    ensures Falling(o, Moved(o, c), 16) == Falling(o, c, 16)[1..] + [false]
  {
    hide Out, Moved;
    SixteenMoves(o, c);
    NothingFalls(o);
    forall i | 0 <= i < 16
      ensures Falling(o, Moved(o, c), 16)[i] == (Falling(o, c, 16)[1..] + [false])[i]
    {
      FallingAt(o, Moved(o, c), 16, i);
      MovesAdd(o, c, 1, i);
      if i < 15 {
        FallingAt(o, c, 16, i + 1);
      }
    }
  }

  lemma NothingFalls(o: Order)
    ensures !Out(o, 0) && Moved(o, 0) == 0
  {
  }

  lemma TapBits(o: Order)
    ensures Falling(o, Tap(o), 16) == GENERATOR[1..]
  {
    match o
    case HighFirst => HighTapBits();
    case LowFirst => LowTapBits();
  }

  lemma {:induction false} FallingSplits(o: Order, c: bv16, m: nat, n: nat)
    ensures Falling(o, c, m + n) == Falling(o, c, m) + Falling(o, Moves(o, c, m), n)
    decreases m
  {
    hide Out, Moved;
    if m > 0 {
      FallingSplits(o, Moved(o, c), m - 1, n);
    }
  }

  lemma EightFall(o: Order, c: bv16)
    ensures var d := Moved(o, c);
            var e := Moved(o, d);
            var f := Moved(o, e);
            var g := Moved(o, f);
            var h := Moved(o, g);
            var k := Moved(o, h);
            var l := Moved(o, k);
            Falling(o, c, 8) == [Out(o, c), Out(o, d), Out(o, e), Out(o, f), Out(o, g), Out(o, h), Out(o, k), Out(o, l)]
  {
    hide Out, Moved;
    FourFall(o, c);
    FourFall(o, Moved(o, Moved(o, Moved(o, Moved(o, c)))));
    FallingSplits(o, c, 4, 4);
    FourMoves(o, c);
  }

  lemma FourFall(o: Order, c: bv16)
    ensures var d := Moved(o, c);
            var e := Moved(o, d);
            Falling(o, c, 4) == [Out(o, c), Out(o, d), Out(o, e), Out(o, Moved(o, e))]
  {
    hide Out, Moved;
    var d := Moved(o, c);
    var e := Moved(o, d);
    var f := Moved(o, e);
    assert Falling(o, f, 1) == [Out(o, f)];
    assert Falling(o, e, 2) == [Out(o, e)] + Falling(o, f, 1);
    assert Falling(o, d, 3) == [Out(o, d)] + Falling(o, e, 2);
  }

  lemma FourMoves(o: Order, c: bv16)
    ensures Moves(o, c, 4) == Moved(o, Moved(o, Moved(o, Moved(o, c))))
  {
    hide Moved;
    assert Moves(o, c, 4) == Moves(o, Moved(o, c), 3);
  }

  lemma SixteenFall(o: Order, c: bv16)
    ensures Falling(o, c, 16)
            == Falling(o, c, 8) + Falling(o, match o case HighFirst => c << 8 case LowFirst => c >> 8, 8)
  {
    FallingSplits(o, c, 8, 8);
    EightMoves(o, c);
    hide Falling, Moves;
  }

  lemma NothingFallsOut(o: Order)
    ensures Falling(o, 0, 8) == Zeros(8)
  {
    NothingFalls(o);
    hide Out, Moved;
    EightFall(o, 0);
  }

  lemma HighTapBits()
    ensures Falling(HighFirst, 0x1021, 16) == GENERATOR[1..]
  {
    SixteenFall(HighFirst, 0x1021);
    EightFall(HighFirst, 0x1021);
    EightFall(HighFirst, 0x2100);
    hide Falling;
  }

  lemma LowTapBits()
    ensures Falling(LowFirst, 0x8408, 16) == GENERATOR[1..]
  {
    SixteenFall(LowFirst, 0x8408);
    EightFall(LowFirst, 0x8408);
    EightFall(LowFirst, 0x84);
    hide Falling;
  }

  lemma StepBits(o: Order, c: bv16)
    ensures RegisterBits(o, Step(o, c)) == Shifted(RegisterBits(o, c))
  {
    hide Out, Moved, Xor, Tap;
    FallingMoves(o, c);
    TapBits(o);
    FallingAdds(o, Moved(o, c), Tap(o), 16);
  }

  lemma XorBits(o: Order, c: bv16, d: bv16)
    ensures RegisterBits(o, Xor(c, d)) == Plus(RegisterBits(o, c), RegisterBits(o, d))
  {
    FallingAdds(o, c, d, 16);
  }

  /** A byte that enters falls out first, bit by bit; one in the other half waits for eight moves. */
  lemma EntryBits(o: Order, b: byte)
    ensures RegisterBits(o, Entry(o, b)) == ByteBits(o, b) + Zeros(8)
    ensures RegisterBits(o, Other(o, b)) == Zeros(8) + ByteBits(o, b)
  {
    match o
    case HighFirst => HighEntryBits(b);
    case LowFirst => LowEntryBits(b);
  }

  lemma HighEntryBits(b: byte)
    ensures Falling(HighFirst, Upper(b), 16) == ByteBits(HighFirst, b) + Zeros(8)
    ensures Falling(HighFirst, Widen(b), 16) == Zeros(8) + ByteBits(HighFirst, b)
  {
    SixteenFall(HighFirst, Upper(b));
    SixteenFall(HighFirst, Widen(b));
    NothingFallsOut(HighFirst);
    hide Falling;
    UpperFalls(b);
    hide ByteBits;
    assert Upper(b) << 8 == 0 && Widen(b) << 8 == Upper(b);
  }

  lemma UpperFalls(b: byte)
    ensures Falling(HighFirst, Upper(b), 8) == ByteBits(HighFirst, b)
    ensures Falling(HighFirst, Widen(b), 8) == Zeros(8)
  {
    EightFall(HighFirst, Upper(b));
    EightFall(HighFirst, Widen(b));
    hide Falling;
  }

  lemma LowEntryBits(b: byte)
    ensures Falling(LowFirst, Widen(b), 16) == ByteBits(LowFirst, b) + Zeros(8)
    ensures Falling(LowFirst, Upper(b), 16) == Zeros(8) + ByteBits(LowFirst, b)
  {
    SixteenFall(LowFirst, Widen(b));
    SixteenFall(LowFirst, Upper(b));
    NothingFallsOut(LowFirst);
    hide Falling;
    WidenFalls(b);
    hide ByteBits;
    assert Widen(b) >> 8 == 0 && Upper(b) >> 8 == Widen(b);
  }

  lemma WidenFalls(b: byte)
    ensures Falling(LowFirst, Widen(b), 8) == ByteBits(LowFirst, b)
    ensures Falling(LowFirst, Upper(b), 8) == Zeros(8)
  {
    EightFall(LowFirst, Widen(b));
    EightFall(LowFirst, Upper(b));
    hide Falling;
  }

  // ----- whole messages ---------------------------------------------------------------------

  /** start times x^8n plus the data times x^16. */
  function Message(o: Order, start: seq<bool>, data: seq<byte>): (p: seq<bool>)
    requires |start| == 16
    ensures |p| == 8 * |data| + 16
  {
    Plus(start + Zeros(8 * |data|), DataBits(o, data) + Zeros(16))
  }

  lemma MessageGrows(o: Order, start: seq<bool>, data: seq<byte>, b: byte)
    requires |start| == 16
    ensures var n := 8 * |data|;
            Message(o, start, data + [b])
            == Plus(Message(o, start, data), Zeros(n) + (ByteBits(o, b) + Zeros(8))) + Zeros(8)
  {
    hide ByteBits;
    assert (data + [b])[..|data|] == data;
    assert DataBits(o, data + [b]) == DataBits(o, data) + ByteBits(o, b);
  }

  lemma {:induction false} StepsDivide(o: Order, p: seq<bool>, q: seq<bool>, c: bv16, n: nat) returns (q': seq<bool>)
    requires Divides(p, q, RegisterBits(o, c))
    ensures |q'| == |q| + n && Divides(p + Zeros(n), q', RegisterBits(o, Steps(o, c, n)))
    decreases n
  {
    hide Divides, RegisterBits, Step, Shifted;
    if n == 0 {
      q' := q;
      assert p + Zeros(0) == p;
    } else {
      var t := StepsDivide(o, p, q, c, n - 1);
      var r := RegisterBits(o, Steps(o, c, n - 1));
      DividesShifts(p + Zeros(n - 1), t, r);
      StepBits(o, Steps(o, c, n - 1));
      q' := t + [r[0]];
      assert p + Zeros(n) == p + Zeros(n - 1) + [false];
    }
  }

  lemma FeedDivides(o: Order, p: seq<bool>, q: seq<bool>, c: bv16, b: byte) returns (q': seq<bool>)
    requires Divides(p, q, RegisterBits(o, c))
    ensures |p| == |q| + 16 && |q'| == |q| + 8
    ensures Divides(Plus(p, Zeros(|q|) + (ByteBits(o, b) + Zeros(8))) + Zeros(8), q', RegisterBits(o, Feed(o, c, b)))
  {
    assert |p| == |q| + 16;
    hide Divides, RegisterBits, ByteBits, Entry, Xor, Steps;
    DividesAdds(p, q, RegisterBits(o, c), RegisterBits(o, Entry(o, b)));
    XorBits(o, c, Entry(o, b));
    EntryBits(o, b);
    q' := StepsDivide(o, Plus(p, Zeros(|q|) + (ByteBits(o, b) + Zeros(8))), q, Xor(c, Entry(o, b)), 8);
  }

  lemma {:induction false} RegisterDivides(o: Order, data: seq<byte>) returns (q: seq<bool>)
    ensures |q| == 8 * |data|
    ensures Divides(Message(o, RegisterBits(o, Start(o)), data), q, RegisterBits(o, Register(o, data)))
    decreases |data|
  {
    hide RegisterBits, Feed;
    var start := RegisterBits(o, Start(o));
    if |data| == 0 {
      q := [];
      assert Message(o, start, []) == start == Plus(Product([]), Zeros(0) + start);
    } else {
      hide Divides, ByteBits, Message;
      var init, b := data[..|data| - 1], data[|data| - 1];
      var t := RegisterDivides(o, init);
      q := FeedDivides(o, Message(o, start, init), t, Register(o, init), b);
      MessageGrows(o, start, init, b);
      assert data == init + [b];
    }
  }

  function Inverted(p: seq<bool>): (r: seq<bool>)
    ensures |r| == |p|
  {
    seq(|p|, i requires 0 <= i < |p| => !p[i])
  }

  lemma ComplementBits(o: Order, c: bv16)
    ensures RegisterBits(o, c) == Inverted(RegisterBits(o, Complement(c)))
  {
    hide RegisterBits, Complement, Xor;
    XorBits(o, c, Complement(c));
    FullRegister(o);
    AddsUp(c);
    OnesApart(RegisterBits(o, c), RegisterBits(o, Complement(c)));
  }

  lemma OnesApart(p: seq<bool>, q: seq<bool>)
    requires |p| == |q| == 16 && Plus(p, q) == Ones(16)
    ensures p == Inverted(q)
  {
    forall i | 0 <= i < 16
      ensures p[i] == Inverted(q)[i]
    {
      assert Plus(p, q)[i] == Ones(16)[i];
    }
  }

  lemma AddsUp(c: bv16)
    ensures Xor(c, Complement(c)) == 0xFFFF
  {
  }

  lemma FullRegister(o: Order)
    ensures RegisterBits(o, 0xFFFF) == Ones(16) && RegisterBits(o, 0) == Zeros(16)
  {
    SixteenFall(o, 0xFFFF);
    SixteenFall(o, 0);
    NothingFallsOut(o);
    EightFall(o, 0xFFFF);
    EightFall(o, if o.HighFirst? then 0xFF00 else 0xFF);
    hide Falling;
    match o
    case HighFirst =>
    case LowFirst =>
  }

  /** The two bytes that are sent hold the sixteen bits in order. */
  lemma SentBits(o: Order, c: bv16)
    ensures RegisterBits(o, c) == ByteBits(o, First(o, c)) + ByteBits(o, Second(o, c))
  {
    hide RegisterBits, ByteBits, First, Second, Entry, Other, Xor;
    HalvesJoin(o, c);
    XorBits(o, Entry(o, First(o, c)), Other(o, Second(o, c)));
    EntryBits(o, First(o, c));
    EntryBits(o, Second(o, c));
    PlusHalves(ByteBits(o, First(o, c)), ByteBits(o, Second(o, c)));
  }

  lemma PlusHalves(p: seq<bool>, q: seq<bool>)
    requires |p| == |q| == 8
    ensures Plus(p + Zeros(8), Zeros(8) + q) == p + q
  {
  }

  lemma HalvesJoin(o: Order, c: bv16)
    ensures c == Xor(Entry(o, First(o, c)), Other(o, Second(o, c)))
  {
    match o
    case HighFirst =>
    case LowFirst =>
  }

  lemma {:induction false} DataBitsAreBits(data: seq<byte>)
    ensures DataBits(HighFirst, data) == Unpack(data)
    decreases |data|
  {
    if |data| > 0 {
      var k := |data| - 1;
      DataBitsAreBits(data[..k]);
      OneByte(data[k]);
      UnpackConcat(data[..k], [data[k]]);
      assert data == data[..k] + [data[k]];
    }
  }

  lemma OneByte(b: byte)
    ensures Unpack([b]) == ByteBits(HighFirst, b)
  {
    hide ByteBits, TestBit;
    forall j | 0 <= j < 8
      ensures Unpack([b])[j] == ByteBits(HighFirst, b)[j]
    {
      OneBit(b, j);
    }
  }

  lemma OneBit(b: byte, j: nat)
    requires j < 8
    ensures TestBit(b, j) == ByteBits(HighFirst, b)[j]
  {
    if
    case j == 0 =>
    case j == 1 =>
    case j == 2 =>
    case j == 3 =>
    case j == 4 =>
    case j == 5 =>
    case j == 6 =>
    case j == 7 =>
  }

  /** The YSF check sequence is the complement of the remainder of the data times x^16: nothing is added in front. */
  lemma CrcIsRemainder(data: seq<byte>) returns (q: seq<bool>)
    ensures var c := Crc.Ccitt16(data);
            Divides(Unpack(data) + Zeros(16), q, Inverted(Unpack([High(c), Low(c)])))
  {
    var c := Crc.Ccitt16(data);
    q := RegisterDivides(HighFirst, data);
    FullRegister(HighFirst);
    ComplementBits(HighFirst, Register(HighFirst, data));
    SentBits(HighFirst, c);
    DataBitsAreBits(data);
    DataBitsAreBits([High(c), Low(c)]);
    hide Divides, Register, Complement, RegisterBits, ByteBits;
    assert Message(HighFirst, Zeros(16), data) == Unpack(data) + Zeros(16);
    TwoBytes(HighFirst, High(c), Low(c));
    hide High, Low;
  }

  lemma TwoBytes(o: Order, x: byte, y: byte)
    ensures DataBits(o, [x, y]) == ByteBits(o, x) + ByteBits(o, y)
  {
    hide ByteBits;
    assert [x, y][..1] == [x] && [x][..0] == [];
  }

  /** So is what AddCrc leaves at the end of a buffer. */
  lemma AddedCrcIsRemainder(data: seq<byte>, x: byte, y: byte) returns (q: seq<bool>)
    requires |data| > 0
    ensures var r := Crc.WithCrc(data + [x, y]);
            r[..|data|] == data && Divides(Unpack(data) + Zeros(16), q, Inverted(Unpack(r[|data|..])))
  {
    hide Divides, Sequence, High, Low;
    q := CrcIsRemainder(data);
    assert (data + [x, y])[..|data|] == data;
    var c := Crc.Ccitt16(data);
    assert Crc.WithCrc(data + [x, y])[|data|..] == [High(c), Low(c)];
  }

  /** The D-STAR check sequence is the complement of the remainder of the data times x^16 with its first sixteen bits
      inverted, where bytes count from their lowest bit, in the data and in the check sequence. */
  lemma DstarCrcIsRemainder(data: seq<byte>) returns (q: seq<bool>)
    ensures var c := Dextra.DstarCrc(data);
            Divides(Plus(Ones(16) + Zeros(8 * |data|), DataBits(LowFirst, data) + Zeros(16)), q,
                    Inverted(DataBits(LowFirst, [Low(c), High(c)])))
  {
    var c := Dextra.DstarCrc(data);
    q := RegisterDivides(LowFirst, data);
    FullRegister(LowFirst);
    ComplementBits(LowFirst, Register(LowFirst, data));
    SentBits(LowFirst, c);
    hide Divides, Register, Complement, RegisterBits, ByteBits;
    TwoBytes(LowFirst, Low(c), High(c));
    hide High, Low;
  }
}
