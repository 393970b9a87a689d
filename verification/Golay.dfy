/** The (24,12) Golay code over a FICH group, as the bridge computes it: systematic division by the generator
    polynomial, then one overall parity bit (ysf_bridge/ysf_codec.go). The decoder only re-encodes. */
module Golay {

  const GENERATOR: bv32 := 0xC75

  // ----- the computation, as functions ------------------------------------------------------

  function Xor(a: bv32, b: bv32): bv32 { a ^ b }

  /** The bit that step i of the division tests, and what it subtracts when the bit is set. */
  function Tested(i: nat): bv32
    requires i < 32
  {
    (1 as bv32) << i
  }

  function Subtrahend(i: nat): bv32
    requires 11 <= i <= 22
  {
    GENERATOR << (i - 11)
  }

  predicate Has(t: bv32, m: bv32) { t & m != 0 }

  function DivStep(t: bv32, i: nat): bv32
    requires 11 <= i <= 22
  {
    if Has(t, Tested(i)) then Xor(t, Subtrahend(i)) else t
  }

  /** What is left of t after the first n steps of the long division, from bit 22 downwards. */
  function Divide(t: bv32, n: nat): bv32
    requires n <= 12
  {
    if n == 0 then t else DivStep(Divide(t, n - 1), 23 - n)
  }

  function Shifted(data: bv32): bv32 { (data & 0xFFF) << 11 }

  function Join23(cw: bv32, rest: bv32): bv32 { cw | (rest & 0x7FF) }

  function Encode23(data: bv32): bv32 {
    Join23(Shifted(data), Divide(Shifted(data), 12))
  }

  /** w >> i, one place at a time. */
  function Down(w: bv32, i: nat): bv32 {
    if i == 0 then w else Half(Down(w, i - 1))
  }

  function Half(w: bv32): bv32 { w >> 1 }

  function Low(w: bv32): bv32 { w & 1 }

  /** The parity of the low n bits. */
  function ParityOf(w: bv32, n: nat): bv32 {
    if n == 0 then 0 else Xor(ParityOf(w, n - 1), Low(Down(w, n - 1)))
  }

  function Double(cw: bv32): bv32 { cw << 1 }

  function Join24(cw: bv32, parity: bv32): bv32 { cw | parity }

  function Encode24(data: bv32): bv32 {
    var cw := Double(Encode23(data));
    Join24(cw, ParityOf(cw, 24))
  }

  function Data(code: bv32): bv32 { (code >> 12) & 0xFFF }

  function Parity(code: bv32): bv32 { code & 0xFFF }

  /** golay24Decode's verdict: the word is the encoding of its own data bits. */
  predicate IsCodeword(code: bv32) {
    Encode24(Data(code)) == code & 0xFFFFFF
  }

  // ----- the code ---------------------------------------------------------------------------

  method Golay23Encode(data: bv32) returns (code: bv32)
    ensures code == Encode23(data)
  {
    hide Has, Xor, Tested, Subtrahend, Join23;
    var cw := (data & 0xFFF) << 11;
    var tmp := cw;
    var i := 22;
    while i >= 11
      invariant 10 <= i <= 22
      invariant tmp == Divide(cw, 22 - i)
    {
      if Has(tmp, Tested(i)) {
        tmp := Xor(tmp, Subtrahend(i));
      }
      i := i - 1;
    }
    code := Join23(cw, tmp);
  }

  method OverallParity(cw: bv32) returns (parity: bv32)
    ensures parity == ParityOf(cw, 24)
  {
    hide Xor, Low, Down;
    parity := 0;
    for i := 0 to 24
      invariant parity == ParityOf(cw, i)
    {
      parity := Xor(parity, Low(Down(cw, i)));
    }
  }

  method Golay24Encode(data: bv32) returns (code: bv32)
    ensures code == Encode24(data)
  {
    hide Encode23, ParityOf, Double, Join24;
    var cw := Golay23Encode(data);
    cw := Double(cw);
    var parity := OverallParity(cw);
    code := Join24(cw, parity);
  }

  method Golay24Decode(code: bv32) returns (data: bv32, ok: bool)
    ensures data == Data(code) && ok == IsCodeword(code)
  {
    hide Encode24;
    data := (code >> 12) & 0xFFF;
    var again := Golay24Encode(data);
    ok := again == code & 0xFFFFFF;
  }

  // ----- every codeword carries its data ----------------------------------------------------

  lemma {:induction false} ParityIsBit(w: bv32, n: nat)
    ensures ParityOf(w, n) == 0 || ParityOf(w, n) == 1
  {
    hide Low, Xor, Down;
    if n != 0 {
      ParityIsBit(w, n - 1);
      LowIsBit(Down(w, n - 1));
      XorOfBits(ParityOf(w, n - 1), Low(Down(w, n - 1)));
    }
  }

  lemma LowIsBit(x: bv32)
    ensures Low(x) == 0 || Low(x) == 1
  {
  }

  lemma XorOfBits(x: bv32, y: bv32)
    requires x == 0 || x == 1
    requires y == 0 || y == 1
    ensures Xor(x, y) == if x == y then 0 else 1
  {
  }

  /** A codeword is 24 bits wide and starts with its twelve data bits; so it always decodes to them. */
  lemma DecodesToData(data: bv32)
    requires data <= 0xFFF
    ensures Encode24(data) <= 0xFFFFFF
    ensures Data(Encode24(data)) == data && IsCodeword(Encode24(data))
  {
    hide ParityOf, Divide, Join24, Join23, Data, Shifted, Double;
    var cw := Double(Encode23(data));
    ParityIsBit(cw, 24);
    Systematic(data, Divide(Shifted(data), 12), ParityOf(cw, 24));
  }

  lemma Systematic(data: bv32, rest: bv32, p: bv32)
    requires data <= 0xFFF && p <= 1
    ensures var code := Join24(Double(Join23(Shifted(data), rest)), p);
            code <= 0xFFFFFF && Data(code) == data && code & 0xFFFFFF == code
  {
  }

  // ----- a codeword is a multiple of the generator, and its parity bits determine it --------

  function Term(q: bool, g: bv32): bv32 { if q then g else 0 }

  /** The product of the generator with the polynomial whose coefficients are q, highest first, without carries:
      its first n terms. */
  function Times(q: seq<bool>, n: nat): bv32
    requires n <= |q| == 12
  {
    if n == 0 then 0 else Xor(Times(q, n - 1), Term(q[n - 1], Subtrahend(23 - n)))
  }

  /** The coefficients that the long division of t finds. */
  function Quotient(t: bv32): (q: seq<bool>)
    ensures |q| == 12
  {
    seq(12, n requires 0 <= n < 12 => Has(Divide(t, n), Tested(22 - n)))
  }

  lemma {:induction false} DivisionIdentity(t: bv32, n: nat)
    requires n <= 12
    ensures t == Xor(Divide(t, n), Times(Quotient(t), n))
  {
    hide Has, Xor, Tested, Subtrahend;
    var q := Quotient(t);
    if n == 0 {
      XorLaws(t, 0, 0);
    } else {
      DivisionIdentity(t, n - 1);
      var was, g, prior := Divide(t, n - 1), Subtrahend(23 - n), Times(q, n - 1);
      assert q[n - 1] == Has(was, Tested(23 - n));
      XorLaws(prior, 0, 0);
      XorLaws(was, g, prior);
    }
  }

  lemma XorLaws(a: bv32, b: bv32, c: bv32)
    ensures Xor(a, 0) == a && Xor(0, a) == a && Xor(a, a) == 0
    ensures Xor(Xor(a, b), Xor(c, b)) == Xor(a, c)
    ensures Xor(a, b) == Xor(b, a)
    ensures Xor(a, Xor(b, c)) == Xor(Xor(a, b), c)
  {
    assert (a ^ b) ^ (c ^ b) == a ^ c;
    assert a ^ (b ^ c) == (a ^ b) ^ c;
  }

  lemma {:induction false} DivisionClears(t: bv32, n: nat)
    requires n <= 12 && Below(t, Tested(23))
    ensures Below(Divide(t, n), Tested(23 - n))
  {
    hide Below, DivStep, Tested;
    if n != 0 {
      DivisionClears(t, n - 1);
      DivStepClears(Divide(t, n - 1), 23 - n);
    }
  }

  /** A multiple of the generator whose eleven low bits vanish has no coefficient but the highest. */
  lemma LowBitsVanish(q: seq<bool>)
    requires |q| == 12 && Times(q, 12) & 0x7FF == 0
    ensures Times(q, 12) == Term(q[0], 0x63A800)
  {
    hide Times, Term, Expanded;
    TimesExpanded(q);
    TermsVanish(q[0], q[1], q[2], q[3], q[4], q[5], q[6], q[7], q[8], q[9], q[10], q[11]);
  }

  lemma TimesExpanded(q: seq<bool>)
    requires |q| == 12
    ensures Times(q, 12) == Expanded(q[0], q[1], q[2], q[3], q[4], q[5], q[6], q[7], q[8], q[9], q[10], q[11])
  {
    hide Has, Xor, Subtrahend, Tested, Term;
    Constants();
    assert Times(q, 1) == Xor(Times(q, 0), Term(q[0], 0x63A800));
    assert Times(q, 2) == Xor(Times(q, 1), Term(q[1], 0x31D400));
    assert Times(q, 3) == Xor(Times(q, 2), Term(q[2], 0x18EA00));
    assert Times(q, 4) == Xor(Times(q, 3), Term(q[3], 0xC7500));
    assert Times(q, 5) == Xor(Times(q, 4), Term(q[4], 0x63A80));
    assert Times(q, 6) == Xor(Times(q, 5), Term(q[5], 0x31D40));
    assert Times(q, 7) == Xor(Times(q, 6), Term(q[6], 0x18EA0));
    assert Times(q, 8) == Xor(Times(q, 7), Term(q[7], 0xC750));
    assert Times(q, 9) == Xor(Times(q, 8), Term(q[8], 0x63A8));
    assert Times(q, 10) == Xor(Times(q, 9), Term(q[9], 0x31D4));
    assert Times(q, 11) == Xor(Times(q, 10), Term(q[10], 0x18EA));
  }

  function Expanded(q0: bool, q1: bool, q2: bool, q3: bool, q4: bool, q5: bool, q6: bool, q7: bool, q8: bool, q9: bool,
                    q10: bool, q11: bool): bv32
  {
    var s0 := Xor(0, Term(q0, 0x63A800));
    var s1 := Xor(s0, Term(q1, 0x31D400));
    var s2 := Xor(s1, Term(q2, 0x18EA00));
    var s3 := Xor(s2, Term(q3, 0xC7500));
    var s4 := Xor(s3, Term(q4, 0x63A80));
    var s5 := Xor(s4, Term(q5, 0x31D40));
    var s6 := Xor(s5, Term(q6, 0x18EA0));
    var s7 := Xor(s6, Term(q7, 0xC750));
    var s8 := Xor(s7, Term(q8, 0x63A8));
    var s9 := Xor(s8, Term(q9, 0x31D4));
    var s10 := Xor(s9, Term(q10, 0x18EA));
    Xor(s10, Term(q11, 0xC75))
  }

  lemma TermsVanish(q0: bool, q1: bool, q2: bool, q3: bool, q4: bool, q5: bool, q6: bool, q7: bool, q8: bool, q9: bool,
                    q10: bool, q11: bool)
    requires Expanded(q0, q1, q2, q3, q4, q5, q6, q7, q8, q9, q10, q11) & 0x7FF == 0
    ensures !q1 && !q2 && !q3 && !q4 && !q5 && !q6 && !q7 && !q8 && !q9 && !q10 && !q11
    ensures Expanded(q0, q1, q2, q3, q4, q5, q6, q7, q8, q9, q10, q11) == Term(q0, 0x63A800)
  {
  }

  /** Step i leaves nothing at or above bit i. */
  predicate Below(t: bv32, m: bv32) { t & !(m - 1) == 0 }

  /** m is a single bit and the highest one of g. */
  predicate Leads(m: bv32, g: bv32) {
    m != 0 && m < 0x80000000 && m & (m - 1) == 0 && g & m != 0 && Below(g, m << 1)
  }

  lemma ReductionClears(t: bv32, m: bv32, g: bv32)
    requires Leads(m, g) && Below(t, m << 1)
    ensures Below(if Has(t, m) then Xor(t, g) else t, m)
  {
  }

  lemma StepLeads(i: nat)
    requires 11 <= i <= 22
    ensures Leads(Tested(i), Subtrahend(i)) && Tested(i + 1) == Tested(i) << 1
  {
    Constants();
    hide Tested, Subtrahend;
    if
    case i == 22 =>
    case i == 21 =>
    case i == 20 =>
    case i == 19 =>
    case i == 18 =>
    case i == 17 =>
    case i == 16 =>
    case i == 15 =>
    case i == 14 =>
    case i == 13 =>
    case i == 12 =>
    case i == 11 =>
  }

  lemma DivStepClears(t: bv32, i: nat)
    requires 11 <= i <= 22 && Below(t, Tested(i + 1))
    ensures Below(DivStep(t, i), Tested(i))
  {
    hide Below, Has, Xor, Tested, Subtrahend, Leads;
    StepLeads(i);
    ReductionClears(t, Tested(i), Subtrahend(i));
  }

  lemma Constants()
    ensures Tested(23) == 0x800000
    ensures Tested(22) == 0x400000 && Subtrahend(22) == 0x63A800
    ensures Tested(21) == 0x200000 && Subtrahend(21) == 0x31D400
    ensures Tested(20) == 0x100000 && Subtrahend(20) == 0x18EA00
    ensures Tested(19) == 0x80000 && Subtrahend(19) == 0xC7500
    ensures Tested(18) == 0x40000 && Subtrahend(18) == 0x63A80
    ensures Tested(17) == 0x20000 && Subtrahend(17) == 0x31D40
    ensures Tested(16) == 0x10000 && Subtrahend(16) == 0x18EA0
    ensures Tested(15) == 0x8000 && Subtrahend(15) == 0xC750
    ensures Tested(14) == 0x4000 && Subtrahend(14) == 0x63A8
    ensures Tested(13) == 0x2000 && Subtrahend(13) == 0x31D4
    ensures Tested(12) == 0x1000 && Subtrahend(12) == 0x18EA
    ensures Tested(11) == 0x800 && Subtrahend(11) == 0xC75
  {
  }

  /** The product is additive in its coefficients. */
  lemma {:induction false} TimesAdds(p: seq<bool>, q: seq<bool>, n: nat)
    requires n <= |p| == |q| == 12
    ensures Times(Sum(p, q), n) == Xor(Times(p, n), Times(q, n))
  {
    hide Xor, Subtrahend;
    if n == 0 {
      XorLaws(0, 0, 0);
    } else {
      TimesAdds(p, q, n - 1);
      var g := Subtrahend(23 - n);
      TermAdds(p[n - 1], q[n - 1], g);
      XorSwap(Times(p, n - 1), Times(q, n - 1), Term(p[n - 1], g), Term(q[n - 1], g));
    }
  }

  function Sum(p: seq<bool>, q: seq<bool>): (r: seq<bool>)
    requires |p| == |q|
    ensures |r| == |p|
  {
    seq(|p|, n requires 0 <= n < |p| => p[n] != q[n])
  }

  lemma TermAdds(p: bool, q: bool, g: bv32)
    ensures Term(p != q, g) == Xor(Term(p, g), Term(q, g))
  {
    hide Xor;
    XorLaws(g, 0, 0);
    XorLaws(0, 0, 0);
  }

  lemma XorSwap(a: bv32, b: bv32, c: bv32, d: bv32)
    ensures Xor(Xor(a, b), Xor(c, d)) == Xor(Xor(a, c), Xor(b, d))
  {
    hide Xor;
    XorLaws(a, b, Xor(c, d));
    XorLaws(b, c, d);
    XorLaws(c, b, d);
    XorLaws(a, c, Xor(b, d));
  }

  /** Every codeword is the generator times the quotient of its shifted data. */
  lemma CodewordIsMultiple(data: bv32)
    ensures Encode23(data) == Times(Quotient(Shifted(data)), 12)
  {
    var t := Shifted(data);
    var r := Divide(t, 12);
    hide Divide, Times, Below, Tested, Shifted, Join23, Quotient;
    Constants();
    ShiftedBelow(data);
    DivisionClears(t, 12);
    DivisionIdentity(t, 12);
    JoinIsXor(data, r);
    hide Xor;
    XorLaws(r, 0, t);
    XorLaws(Times(Quotient(t), 12), r, 0);
    XorLaws(r, r, Times(Quotient(t), 12));
    XorLaws(t, r, 0);
  }

  lemma ShiftedBelow(data: bv32)
    ensures Below(Shifted(data), 0x800000)
  {
  }

  lemma JoinIsXor(data: bv32, r: bv32)
    requires Below(r, 0x800)
    ensures Join23(Shifted(data), r) == Xor(Shifted(data), r)
  {
  }

  lemma HalfAdds(a: bv32, b: bv32)
    ensures Half(Xor(a, b)) == Xor(Half(a), Half(b))
  {
    assert (a ^ b) >> 1 == (a >> 1) ^ (b >> 1);
  }

  lemma LowAdds(a: bv32, b: bv32)
    ensures Low(Xor(a, b)) == Xor(Low(a), Low(b))
  {
    assert (a ^ b) & 1 == (a & 1) ^ (b & 1);
  }

  lemma {:induction false} DownAdds(a: bv32, b: bv32, i: nat)
    ensures Down(Xor(a, b), i) == Xor(Down(a, i), Down(b, i))
  {
    hide Xor, Half;
    if i != 0 {
      DownAdds(a, b, i - 1);
      HalfAdds(Down(a, i - 1), Down(b, i - 1));
    }
  }

  lemma {:induction false} ParityAdds(a: bv32, b: bv32, n: nat)
    ensures ParityOf(Xor(a, b), n) == Xor(ParityOf(a, n), ParityOf(b, n))
  {
    hide Xor, Low, Down;
    if n == 0 {
      XorLaws(0, 0, 0);
    } else {
      ParityAdds(a, b, n - 1);
      DownAdds(a, b, n - 1);
      LowAdds(Down(a, n - 1), Down(b, n - 1));
      XorSwap(ParityOf(a, n - 1), ParityOf(b, n - 1), Low(Down(a, n - 1)), Low(Down(b, n - 1)));
    }
  }

  /** The eleven division bits and the parity bit determine the data: no two of the 4096 codewords agree on them. */
  lemma ParityDeterminesData(a: bv32, b: bv32)
    requires a <= 0xFFF && b <= 0xFFF
    requires Parity(Encode24(a)) == Parity(Encode24(b))
    ensures a == b
  {
    hide *;
    var x, y := Encode23(a), Encode23(b);
    var p, q := Quotient(Shifted(a)), Quotient(Shifted(b));
    CodewordIsMultiple(a);
    CodewordIsMultiple(b);
    TimesAdds(p, q, 12);
    ParityIsBit(Double(x), 24);
    ParityIsBit(Double(y), 24);
    var u, v := ParityOf(Double(x), 24), ParityOf(Double(y), 24);
    EncodeJoins(a);
    EncodeJoins(b);
    SplitParity(x, y, u, v);
    LowBitsVanish(Sum(p, q));
    TermCases(Sum(p, q)[0], 0x63A800);
    if Xor(x, y) == 0 {
      XorZero(x, y);
      DecodesToData(a);
      DecodesToData(b);
    } else {
      DoubleAdds(x, y);
      ParityAdds(Double(x), Double(y), 24);
      GeneratorIsOdd();
      XorLaws(u, 0, 0);
      assert false;
    }
  }

  lemma EncodeJoins(data: bv32)
    ensures Encode24(data) == Join24(Double(Encode23(data)), ParityOf(Double(Encode23(data)), 24))
  {
    hide Encode23, ParityOf, Double, Join24;
  }

  lemma TermCases(q: bool, g: bv32)
    ensures Term(q, g) == 0 || Term(q, g) == g
  {
  }

  lemma XorZero(x: bv32, y: bv32)
    requires Xor(x, y) == 0
    ensures x == y
  {
  }

  lemma DoubleAdds(x: bv32, y: bv32)
    ensures Double(Xor(x, y)) == Xor(Double(x), Double(y))
  {
    assert (x ^ y) << 1 == (x << 1) ^ (y << 1);
  }

  lemma SplitParity(x: bv32, y: bv32, u: bv32, v: bv32)
    requires u <= 1 && v <= 1
    requires Parity(Join24(Double(x), u)) == Parity(Join24(Double(y), v))
    ensures u == v && Xor(x, y) & 0x7FF == 0
  {
  }

  /** The generator has seven terms. */
  lemma GeneratorIsOdd()
    ensures ParityOf(Double(0x63A800), 24) == 1
  {
    var w: bv32 := 0xC75000;
    assert Double(0x63A800) == w;
    hide Double;
    assert Down(w, 1) == 0x63A800 && ParityOf(w, 1) == 0;
    assert Down(w, 2) == 0x31D400 && ParityOf(w, 2) == 0;
    assert Down(w, 3) == 0x18EA00 && ParityOf(w, 3) == 0;
    assert Down(w, 4) == 0xC7500 && ParityOf(w, 4) == 0;
    assert Down(w, 5) == 0x63A80 && ParityOf(w, 5) == 0;
    assert Down(w, 6) == 0x31D40 && ParityOf(w, 6) == 0;
    assert Down(w, 7) == 0x18EA0 && ParityOf(w, 7) == 0;
    assert Down(w, 8) == 0xC750 && ParityOf(w, 8) == 0;
    assert Down(w, 9) == 0x63A8 && ParityOf(w, 9) == 0;
    assert Down(w, 10) == 0x31D4 && ParityOf(w, 10) == 0;
    assert Down(w, 11) == 0x18EA && ParityOf(w, 11) == 0;
    assert Down(w, 12) == 0xC75 && ParityOf(w, 12) == 0;
    assert Down(w, 13) == 0x63A && ParityOf(w, 13) == 1;
    assert Down(w, 14) == 0x31D && ParityOf(w, 14) == 1;
    assert Down(w, 15) == 0x18E && ParityOf(w, 15) == 0;
    assert Down(w, 16) == 0xC7 && ParityOf(w, 16) == 0;
    assert Down(w, 17) == 0x63 && ParityOf(w, 17) == 1;
    assert Down(w, 18) == 0x31 && ParityOf(w, 18) == 0;
    assert Down(w, 19) == 0x18 && ParityOf(w, 19) == 1;
    assert Down(w, 20) == 0xC && ParityOf(w, 20) == 1;
    assert Down(w, 21) == 0x6 && ParityOf(w, 21) == 1;
    assert Down(w, 22) == 0x3 && ParityOf(w, 22) == 1;
    assert Down(w, 23) == 0x1 && ParityOf(w, 23) == 0;
  }

  lemma {:induction false} ParityOfBit(u: bv32, n: nat)
    requires (u == 0 || u == 1) && n > 0
    ensures Down(u, n) == 0 && ParityOf(u, n) == u
  {
    HalfOfBit(u);
    hide Half, Low, Xor;
    XorLaws(u, 0, 0);
    if n == 1 {
      assert Down(u, 0) == u && ParityOf(u, 0) == 0;
    } else {
      ParityOfBit(u, n - 1);
      HalfOfBit(0);
    }
  }

  lemma HalfOfBit(u: bv32)
    requires u == 0 || u == 1
    ensures Half(u) == 0 && Low(u) == u
  {
  }

  lemma JoinedParity(x: bv32, u: bv32)
    requires u == 0 || u == 1
    ensures Join24(Double(x), u) == Xor(Double(x), u)
  {
    hide *;
    if u == 0 {
      NothingJoined(Double(x));
    } else {
      OneJoined(x);
    }
  }

  lemma NothingJoined(w: bv32)
    ensures Join24(w, 0) == Xor(w, 0)
  {
  }

  lemma OneJoined(x: bv32)
    ensures Join24(Double(x), 1) == Xor(Double(x), 1)
  {
    assert (x << 1) | 1 == (x << 1) ^ 1;
  }

  /** Every 24-bit word has an even number of ones. */
  lemma EvenWeight(data: bv32)
    ensures ParityOf(Encode24(data), 24) == 0
  {
    hide *;
    var x := Double(Encode23(data));
    var u := ParityOf(x, 24);
    EncodeJoins(data);
    ParityIsBit(x, 24);
    JoinedParity(Encode23(data), u);
    ParityAdds(x, u, 24);
    ParityOfBit(u, 24);
    XorLaws(u, u, u);
  }
}
