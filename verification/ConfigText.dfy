/** Lines, blanks and decimal numbers, as Ruby's strip, split, join and to_i see them. */
module ConfigText {

  /** Ruby's whitespace for strip, which includes the null character. */
  predicate IsSpace(c: char) {
    c == ' ' || '\t' <= c <= '\r' || c == '\0'
  }

  function StripRight(s: string): (r: string)
    ensures |r| <= |s| && r == s[..|r|]
    ensures |r| > 0 ==> !IsSpace(r[|r| - 1])
    ensures |s| > 0 && !IsSpace(s[|s| - 1]) ==> r == s
  {
    if |s| > 0 && IsSpace(s[|s| - 1]) then StripRight(s[..|s| - 1]) else s
  }

  function StripLeft(s: string): (r: string)
    ensures |r| <= |s| && r == s[|s| - |r|..]
    ensures |r| > 0 ==> !IsSpace(r[0])
    ensures |s| > 0 && !IsSpace(s[0]) ==> r == s
  {
    if |s| > 0 && IsSpace(s[0]) then StripLeft(s[1..]) else s
  }

  function Strip(s: string): string { StripLeft(StripRight(s)) }

  predicate Stripped(s: string) {
    |s| > 0 ==> !IsSpace(s[0]) && !IsSpace(s[|s| - 1])
  }

  lemma StripIsStripped(s: string)
    ensures Stripped(Strip(s))
    ensures Stripped(s) ==> Strip(s) == s
  {
    var r := StripRight(s);
    var t := StripLeft(r);
    if |t| > 0 {
      assert t[|t| - 1] == r[|r| - 1];
    }
  }

  /** The part of a stripped line in front of a mark still starts where the line does, and the part behind it still
      ends where the line does. */
  lemma StripKeepsEnds(s: string, i: nat)
    requires Stripped(s) && i < |s|
    ensures i > 0 ==> |Strip(s[..i])| > 0 && Strip(s[..i])[0] == s[0]
    ensures i + 1 < |s| ==> var b := Strip(s[i + 1..]); |b| > 0 && b[|b| - 1] == s[|s| - 1]
  {
    if i > 0 {
      var a := s[..i];
      HasCore(a, 0);
      var r := StripRight(a);
      assert r[0] == a[0];
    }
    if i + 1 < |s| {
      var b := s[i + 1..];
      assert StripRight(b) == b;
      HasCoreLeft(b, |b| - 1);
      assert Strip(b) == b[|b| - |Strip(b)|..];
    }
  }

  lemma HasCore(s: string, i: nat)
    requires i < |s| && !IsSpace(s[i])
    ensures |StripRight(s)| > i
  {
    if IsSpace(s[|s| - 1]) {
      HasCore(s[..|s| - 1], i);
    }
  }

  lemma HasCoreLeft(s: string, i: nat)
    requires i < |s| && !IsSpace(s[i])
    ensures |StripLeft(s)| >= |s| - i
  {
    if IsSpace(s[0]) {
      HasCoreLeft(s[1..], i - 1);
    }
  }

  function Split(text: string): (lines: seq<string>)
    ensures |lines| > 0
  {
    if |text| == 0 then [""]
    else if text[0] == '\n' then [""] + Split(text[1..])
    else
      var rest := Split(text[1..]);
      [[text[0]] + rest[0]] + rest[1..]
  }

  function Join(lines: seq<string>): string
    requires |lines| > 0
  {
    if |lines| == 1 then lines[0] else lines[0] + "\n" + Join(lines[1..])
  }

  lemma {:induction false} SplitLine(line: string, rest: string)
    requires '\n' !in line
    ensures Split(line + "\n" + rest) == [line] + Split(rest)
    ensures Split(line) == [line]
  {
    var text := line + "\n" + rest;
    if |line| == 0 {
      assert text[1..] == rest;
      assert line == "";
    } else {
      SplitLine(line[1..], rest);
      assert text[1..] == line[1..] + "\n" + rest;
      assert line == [line[0]] + line[1..];
    }
  }

  lemma {:induction false} SplitJoin(lines: seq<string>)
    requires |lines| > 0 && forall k :: 0 <= k < |lines| ==> '\n' !in lines[k]
    ensures Split(Join(lines)) == lines
  {
    if |lines| == 1 {
      SplitLine(lines[0], "");
    } else {
      SplitJoin(lines[1..]);
      SplitLine(lines[0], Join(lines[1..]));
    }
  }

  lemma {:induction false} SplitHasNoBreaks(text: string, k: nat)
    requires k < |Split(text)|
    ensures '\n' !in Split(text)[k]
  {
    if |text| > 0 {
      if text[0] == '\n' {
        if k > 0 {
          SplitHasNoBreaks(text[1..], k - 1);
        }
      } else {
        SplitHasNoBreaks(text[1..], k);
      }
    }
  }

  // ----- decimal numbers --------------------------------------------------------------------

  predicate IsDigit(c: char) { '0' <= c <= '9' }

  predicate Digits(s: string) {
    |s| > 0 && forall k :: 0 <= k < |s| ==> IsDigit(s[k])
  }

  function ToInt(s: string): nat
    requires forall k :: 0 <= k < |s| ==> IsDigit(s[k])
  {
    if |s| == 0 then 0
    else
      assert IsDigit(s[|s| - 1]);
      10 * ToInt(s[..|s| - 1]) + (s[|s| - 1] as int - '0' as int)
  }

  function Decimal(n: nat): (s: string)
    ensures Digits(s)
  {
    (if n < 10 then [] else Decimal(n / 10)) + [('0' as int + n % 10) as char]
  }

  lemma {:induction false} DecimalReads(n: nat)
    ensures ToInt(Decimal(n)) == n
  {
    var s := Decimal(n);
    if n >= 10 {
      DecimalReads(n / 10);
      assert s[..|s| - 1] == Decimal(n / 10);
    } else {
      assert s[..|s| - 1] == [];
    }
  }

  function TenTo(n: nat): nat {
    if n == 0 then 1 else 10 * TenTo(n - 1)
  }

  /** A numeral is read by the place of its digits. */
  lemma {:induction false} ToIntByPlaces(a: string, b: string)
    requires forall k :: 0 <= k < |a| ==> IsDigit(a[k])
    requires forall k :: 0 <= k < |b| ==> IsDigit(b[k])
    ensures ToInt(a + b) == TenTo(|b|) * ToInt(a) + ToInt(b)
    ensures |a| == 1 ==> ToInt(a) == a[0] as int - 48
  {
    if |b| == 0 {
      assert a + b == a;
    } else {
      var n := |b| - 1;
      ToIntByPlaces(a, b[..n]);
      assert (a + b)[..|a| + n] == a + b[..n];
      TimesTen(TenTo(n), ToInt(a), ToInt(b[..n]));
    }
  }

  lemma TimesTen(p: nat, x: nat, y: nat)
    ensures 10 * (p * x + y) == (10 * p) * x + 10 * y
  {
  }
}
