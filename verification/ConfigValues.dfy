/** Which value a key has after a file is loaded, said of the lines of the file: that of the last line which sets the
    key under one of its section's headers (app/services/reflector_config.rb:68-132). And what the lines of a saved file
    are (app/services/reflector_config.rb:160-247). */
module ConfigValues {
  import opened ConfigText
  import opened ReflectorConfig

  // ----- what a line says -------------------------------------------------------------------

  predicate Blank(c: char) { c in ['\0', '\t', '\n', '\U{0B}', '\U{0C}', '\r', ' '] }

  /** t is s without the blanks at its ends. */
  ghost predicate Trimmed(s: string, t: string) {
    && (|t| > 0 ==> !Blank(t[0]) && !Blank(t[|t| - 1]))
    && exists a: nat :: Around(s, t, a)
  }

  /** t begins at a in s and has nothing but blanks around it. */
  ghost predicate Around(s: string, t: string, a: nat) {
    && a + |t| <= |s| && t == s[a..a + |t|]
    && forall k :: 0 <= k < a || a + |t| <= k < |s| ==> Blank(s[k])
  }

  /** A line that opens the section name. */
  ghost predicate Opens(raw: string, name: string) {
    |name| > 0 && Trimmed(raw, "[" + name + "]")
  }

  /** A line that is no comment and no header and sets key to value, with the blanks around both taken off. */
  ghost predicate Sets(raw: string, key: string, value: string) {
    exists a: string, b: string :: SetsAs(raw, a, b, key, value)
  }

  ghost predicate SetsAs(raw: string, a: string, b: string, key: string, value: string) {
    && Trimmed(raw, a + "=" + b) && '=' !in a && Trimmed(a, key) && Trimmed(b, value)
    && (|a| > 0 ==> a[0] != '#')
    && !(|a| > 0 && a[0] == '[' && |b| > 0 && b[|b| - 1] == ']')
  }

  // ----- where it counts --------------------------------------------------------------------

  /** The last header above line i is that of the section name. */
  ghost predicate Under(lines: seq<string>, i: nat, name: string)
    requires i <= |lines|
  {
    exists h: nat :: LastHeader(lines, i, h, name)
  }

  ghost predicate LastHeader(lines: seq<string>, i: nat, h: nat, name: string)
    requires i <= |lines|
  {
    h < i && Opens(lines[h], name) && forall j: nat, m: string | h < j < i :: !Opens(lines[j], m)
  }

  /** The names under which the pairs of t stand. TG#5 and TG#05 are one talkgroup. */
  predicate Names(t: Target, name: string) {
    match t
    case ToPlain(Global) => name == "GLOBAL"
    case ToPlain(RootCa) => name == "ROOT_CA"
    case ToPlain(IssuingCa) => name == "ISSUING_CA"
    case ToPlain(ServerCert) => name == "SERVER_CERT"
    case ToPlain(Users) => name == "USERS"
    case ToPlain(Passwords) => name == "PASSWORDS"
    case ToPlain(Satellite) => name == "SATELLITE"
    case ToPlain(Twin) => name == "TWIN"
    case ToPlain(Redis) => name == "REDIS"
    case ToPlain(Mqtt) => name == "MQTT"
    case ToTg(n) =>
      && |name| > 3 && name[..3] == "TG#" && (forall k :: 3 <= k < |name| ==> '0' <= name[k] <= '9')
      && ToInt(name[3..]) == n
    case ToTrunk(trunk) =>
      && name == trunk && |name| > 6 && name[..6] == "TRUNK_"
      && forall k :: 6 <= k < |name| ==>
           'a' <= name[k] <= 'z' || 'A' <= name[k] <= 'Z' || '0' <= name[k] <= '9' || name[k] == '_'
    case Nowhere => false
  }

  /** Line i sets key of t to value. In [MQTT] a line for NAME sets MQTT_NAME. */
  ghost predicate SetsIn(lines: seq<string>, i: nat, t: Target, key: string, value: string)
    requires i < |lines|
  {
    exists name: string, written: string ::
      && Under(lines, i, name) && Names(t, name) && Sets(lines[i], written, value)
      && key == if name == "MQTT" && written == "NAME" then "MQTT_NAME" else written
  }

  /** Of the first n lines, i is the last one that sets the key of p, and it sets it to the value of p. */
  ghost predicate LastSet(lines: seq<string>, n: nat, i: nat, t: Target, p: Pair)
    requires n <= |lines|
  {
    && i < n && SetsIn(lines, i, t, p.key, p.value)
    && forall j: nat, v: string | i < j < n :: !SetsIn(lines, j, t, p.key, v)
  }

  /** One of the first n lines is the last to set the key of p, and sets it to the value of p. */
  ghost predicate Stands(lines: seq<string>, n: nat, t: Target, p: Pair)
    requires n <= |lines|
  {
    exists i: nat :: LastSet(lines, n, i, t, p)
  }

  ghost predicate FirstSet(lines: seq<string>, i: nat, t: Target, key: string) {
    && i < |lines| && (exists v: string :: SetsIn(lines, i, t, key, v))
    && forall j: nat, v: string | j < i :: !SetsIn(lines, j, t, key, v)
  }

  predicate HasKey(s: Section, key: string) {
    exists k :: 0 <= k < |s| && s[k].key == key
  }

  /** s holds a pair for every key that one of the first n lines sets for t, once, with the last value, and no more. */
  ghost predicate HoldsLast(lines: seq<string>, n: nat, t: Target, s: Section)
    requires n <= |lines|
  {
    && (forall i, j :: 0 <= i < j < |s| ==> s[i].key != s[j].key)
    && (forall k :: 0 <= k < |s| ==> Stands(lines, n, t, s[k]))
    && (forall i: nat, key: string, v: string | i < n && SetsIn(lines, i, t, key, v) :: HasKey(s, key))
  }

  /** The keys come in the order in which they are first set. */
  ghost predicate KeysAsSet(lines: seq<string>, t: Target, s: Section) {
    forall k, l, i: nat, j: nat |
      0 <= k < l < |s| && FirstSet(lines, i, t, s[k].key) && FirstSet(lines, j, t, s[l].key) :: i < j
  }

  /** One of the first n lines is a header for t. */
  ghost predicate Opened(lines: seq<string>, n: nat, t: Target)
    requires n <= |lines|
  {
    exists i: nat, name: string :: i < n && Opens(lines[i], name) && Names(t, name)
  }

  // ----- lines, by the model's own means ----------------------------------------------------

  lemma BlankIsSpace(c: char)
    ensures Blank(c) <==> IsSpace(c)
  {
  }

  lemma StripRightBlanks(s: string, k: nat)
    requires |StripRight(s)| <= k < |s|
    ensures IsSpace(s[k])
  {
    if k < |s| - 1 {
      StripRightBlanks(s[..|s| - 1], k);
    }
  }

  lemma StripLeftBlanks(s: string, k: nat)
    requires k < |s| - |StripLeft(s)|
    ensures IsSpace(s[k])
  {
    if k > 0 {
      StripLeftBlanks(s[1..], k - 1);
    }
  }

  lemma StripIsTrimmed(s: string)
    ensures Trimmed(s, Strip(s))
  {
    hide IsSpace, Blank, Around;
    var r := StripRight(s);
    var t := StripLeft(r);
    StripIsAround(s);
    if |t| > 0 {
      assert t[|t| - 1] == r[|r| - 1];
      BlankIsSpace(t[0]);
      BlankIsSpace(t[|t| - 1]);
    }
  }

  lemma StripIsAround(s: string)
    ensures Around(s, Strip(s), |StripRight(s)| - |Strip(s)|)
  {
    hide IsSpace, Blank, StripLeft, StripRight;
    var r := StripRight(s);
    var t := StripLeft(r);
    var a := |r| - |t|;
    forall k | 0 <= k < a || a + |t| <= k < |s|
      ensures Blank(s[k])
    {
      BlankIsSpace(s[k]);
      if k < a {
        StripLeftBlanks(r, k);
      } else {
        StripRightBlanks(s, k);
      }
    }
    assert t == s[a..a + |t|];
  }

  lemma TrimmedOnce(s: string, t: string, u: string)
    requires Trimmed(s, t) && Trimmed(s, u)
    ensures t == u
  {
    hide Blank;
    var a: nat :| Around(s, t, a);
    var b: nat :| Around(s, u, b);
    if |t| > 0 {
      assert !Blank(s[a]) && !Blank(s[a + |t| - 1]);
    }
    if |u| > 0 {
      assert !Blank(s[b]) && !Blank(s[b + |u| - 1]);
    }
  }

  lemma TrimmedIffStrip(s: string, t: string)
    ensures Trimmed(s, t) <==> t == Strip(s)
  {
    hide Trimmed, Strip;
    StripIsTrimmed(s);
    if Trimmed(s, t) {
      TrimmedOnce(s, t, Strip(s));
    }
  }

  /** The section that a line opens, if any. */
  function HeaderIn(raw: string): Current {
    var line := Strip(raw);
    if IsHeader(line) then InSection(line[1..|line| - 1]) else NoSection
  }

  lemma OpensIff(raw: string, name: string)
    ensures Opens(raw, name) <==> HeaderIn(raw) == InSection(name)
  {
    hide Trimmed, Strip;
    TrimmedIffStrip(raw, "[" + name + "]");
    var line := Strip(raw);
    if IsHeader(line) {
      assert line == "[" + line[1..|line| - 1] + "]";
    }
    assert ("[" + name + "]")[1..|name| + 1] == name;
  }

  /** The pair that a line sets, if any. */
  function PairIn(raw: string): (s: Section)
    ensures |s| <= 1
  {
    var line := Strip(raw);
    if |line| == 0 || line[0] == '#' || IsHeader(line) || Mark(line) == |line| then []
    else [Pair(Strip(line[..Mark(line)]), Strip(line[Mark(line) + 1..]))]
  }

  lemma MarkIsWhere(a: string, b: string)
    requires '=' !in a
    ensures Mark(a + "=" + b) == |a|
  {
    var line := a + "=" + b;
    assert line[|a|] == '=' && forall k :: 0 <= k < |a| ==> line[k] == a[k];
    assert forall k :: 0 <= k < Mark(line) ==> line[..Mark(line)][k] == line[k];
  }

  lemma SetsAsIs(raw: string, a: string, b: string, key: string, value: string)
    requires SetsAs(raw, a, b, key, value)
    ensures PairIn(raw) == [Pair(key, value)]
  {
    hide Trimmed, Strip, Mark;
    var line := a + "=" + b;
    TrimmedIffStrip(raw, line);
    TrimmedIffStrip(a, key);
    TrimmedIffStrip(b, value);
    MarkIsWhere(a, b);
    assert line[..|a|] == a && line[|a| + 1..] == b;
    assert line[0] == if |a| > 0 then a[0] else '=';
    assert line[|line| - 1] == if |b| > 0 then b[|b| - 1] else '=';
  }

  lemma PairInSets(raw: string)
    requires PairIn(raw) != []
    ensures Sets(raw, PairIn(raw)[0].key, PairIn(raw)[0].value)
  {
    hide Trimmed, Strip, Mark;
    var line := Strip(raw);
    var a, b := line[..Mark(line)], line[Mark(line) + 1..];
    assert line == a + "=" + b;
    TrimmedIffStrip(raw, line);
    TrimmedIffStrip(a, Strip(a));
    TrimmedIffStrip(b, Strip(b));
    if |a| > 0 && |b| > 0 {
      assert line[0] == a[0] && line[|line| - 1] == b[|b| - 1] && |line| >= 3;
    }
    assert SetsAs(raw, a, b, Strip(a), Strip(b));
  }

  lemma SetsIff(raw: string, key: string, value: string)
    ensures Sets(raw, key, value) <==> PairIn(raw) == [Pair(key, value)]
  {
    hide SetsAs, PairIn;
    if Sets(raw, key, value) {
      var a: string, b: string :| SetsAs(raw, a, b, key, value);
      SetsAsIs(raw, a, b, key, value);
    }
    if PairIn(raw) == [Pair(key, value)] {
      PairInSets(raw);
    }
  }

  /** The section that is current at line i. */
  function CurrentAt(lines: seq<string>, i: nat): Current
    requires i <= |lines|
  {
    if i == 0 then NoSection
    else if HeaderIn(lines[i - 1]).InSection? then HeaderIn(lines[i - 1])
    else CurrentAt(lines, i - 1)
  }

  lemma {:induction false} UnderIff(lines: seq<string>, i: nat, name: string)
    requires i <= |lines|
    ensures Under(lines, i, name) <==> CurrentAt(lines, i) == InSection(name)
  {
    hide Opens, HeaderIn;
    if i > 0 {
      forall m: string
        ensures Opens(lines[i - 1], m) <==> HeaderIn(lines[i - 1]) == InSection(m)
      {
        OpensIff(lines[i - 1], m);
      }
      if HeaderIn(lines[i - 1]).InSection? {
        var m := HeaderIn(lines[i - 1]).name;
        if m == name {
          assert LastHeader(lines, i, i - 1, name);
        }
        if Under(lines, i, name) {
          var h: nat :| LastHeader(lines, i, h, name);
          assert Opens(lines[i - 1], m);
        }
      } else {
        UnderIff(lines, i - 1, name);
        if Under(lines, i, name) {
          var h: nat :| LastHeader(lines, i, h, name);
          assert LastHeader(lines, i - 1, h, name);
        }
        if Under(lines, i - 1, name) {
          var h: nat :| LastHeader(lines, i - 1, h, name);
          forall j: nat, m: string | h < j < i
            ensures !Opens(lines[j], m)
          {
            OpensIff(lines[j], m);
            if j < i - 1 {
              assert !Opens(lines[j], m);
            }
          }
          assert LastHeader(lines, i, h, name);
        }
      }
    }
  }

  lemma TgNamesIff(name: string)
    ensures IsTg(name) <==>
            |name| > 3 && name[..3] == "TG#" && (forall k :: 3 <= k < |name| ==> '0' <= name[k] <= '9')
  {
    if TG_PREFIX <= name {
      assert name[..3] == "TG#";
      assert forall k :: 3 <= k < |name| ==> name[3..][k - 3] == name[k];
    }
    if |name| > 3 && name[..3] == "TG#" {
      assert TG_PREFIX <= name;
    }
  }

  lemma TrunkNamesIff(name: string)
    ensures IsTrunk(name) <==>
            && |name| > 6 && name[..6] == "TRUNK_"
            && forall k :: 6 <= k < |name| ==>
                 'a' <= name[k] <= 'z' || 'A' <= name[k] <= 'Z' || '0' <= name[k] <= '9' || name[k] == '_'
  {
    if TRUNK_PREFIX <= name {
      assert name[..6] == "TRUNK_";
    }
    if |name| > 6 && name[..6] == "TRUNK_" {
      assert TRUNK_PREFIX <= name;
    }
  }

  lemma PrefixesApart(name: string)
    ensures IsTg(name) ==> name[1] == 'G' && name[0] == 'T' && name[2] == '#'
    ensures IsTrunk(name) ==> name[0] == 'T' && name[1] == 'R'
  {
  }

  lemma NamesIff(t: Target, name: string)
    ensures Names(t, name) <==> t != Nowhere && TargetOf(name) == t
  {
    hide ToInt, IsTg, IsTrunk;
    TgNamesIff(name);
    TrunkNamesIff(name);
    PrefixesApart(name);
  }

  // ----- what a line stores -----------------------------------------------------------------

  /** The pair that line i stores for t, if any. */
  function StoredAt(lines: seq<string>, i: nat, t: Target): (s: Section)
    requires i < |lines|
    ensures |s| <= 1
  {
    var current, p := CurrentAt(lines, i), PairIn(lines[i]);
    if current.InSection? && TargetOf(current.name) == t && |p| == 1 then [Pair(StoredKey(t, p[0].key), p[0].value)]
    else []
  }

  lemma OnlyMqttIsMqtt(name: string)
    ensures TargetOf(name) == ToPlain(Mqtt) <==> name == "MQTT"
  {
  }

  lemma SetsInIff(lines: seq<string>, i: nat, t: Target, key: string, value: string)
    requires i < |lines| && t != Nowhere
    ensures SetsIn(lines, i, t, key, value) <==> StoredAt(lines, i, t) == [Pair(key, value)]
  {
    hide Under, Names, Sets, TargetOf, CurrentAt, PairIn;
    forall name: string, written: string
      ensures Under(lines, i, name) <==> CurrentAt(lines, i) == InSection(name)
      ensures Names(t, name) <==> TargetOf(name) == t
      ensures Sets(lines[i], written, value) <==> PairIn(lines[i]) == [Pair(written, value)]
      ensures TargetOf(name) == ToPlain(Mqtt) <==> name == "MQTT"
    {
      UnderIff(lines, i, name);
      NamesIff(t, name);
      SetsIff(lines[i], written, value);
      OnlyMqttIsMqtt(name);
    }
    if StoredAt(lines, i, t) == [Pair(key, value)] {
      var name, written := CurrentAt(lines, i).name, PairIn(lines[i])[0].key;
      assert Under(lines, i, name) && Names(t, name) && Sets(lines[i], written, value);
    }
  }

  lemma AtMostOneSet(lines: seq<string>, i: nat, t: Target, key: string, value: string, other: string, v: string)
    requires i < |lines| && t != Nowhere && SetsIn(lines, i, t, key, value) && SetsIn(lines, i, t, other, v)
    ensures key == other && value == v
  {
    hide SetsIn, StoredAt;
    SetsInIff(lines, i, t, key, value);
    SetsInIff(lines, i, t, other, v);
  }

  // ----- what Put does ----------------------------------------------------------------------

  lemma {:induction false} PutAtKey(s: Section, k: nat, key: string, value: string)
    requires Distinct(s) && k < |s| && s[k].key == key
    ensures Put(s, key, value) == s[k := Pair(key, value)]
  {
    if k > 0 {
      PutAtKey(s[1..], k - 1, key, value);
      assert s == [s[0]] + s[1..];
    }
  }

  lemma StillStands(lines: seq<string>, n: nat, t: Target, p: Pair)
    requires n < |lines| && Stands(lines, n, t, p) && forall v: string :: !SetsIn(lines, n, t, p.key, v)
    ensures Stands(lines, n + 1, t, p)
  {
    hide SetsIn;
    var i: nat :| LastSet(lines, n, i, t, p);
    assert LastSet(lines, n + 1, i, t, p);
  }

  lemma NowStands(lines: seq<string>, n: nat, t: Target, p: Pair)
    requires n < |lines| && SetsIn(lines, n, t, p.key, p.value)
    ensures Stands(lines, n + 1, t, p)
  {
    hide SetsIn;
    assert LastSet(lines, n + 1, n, t, p);
  }

  /** Storing a pair with line n for t keeps what is said of the first n lines for the first n + 1. */
  lemma PutHoldsLast(lines: seq<string>, n: nat, t: Target, s: Section, key: string, value: string)
    requires n < |lines| && t != Nowhere && HoldsLast(lines, n, t, s) && SetsIn(lines, n, t, key, value)
    ensures HoldsLast(lines, n + 1, t, Put(s, key, value))
  {
    hide SetsIn, Stands, Put;
    var r := Put(s, key, value);
    forall other: string, v: string | SetsIn(lines, n, t, other, v)
      ensures other == key && v == value
    {
      AtMostOneSet(lines, n, t, key, value, other, v);
    }
    NowStands(lines, n, t, Pair(key, value));
    forall k | 0 <= k < |s| && s[k].key != key
      ensures Stands(lines, n + 1, t, s[k])
    {
      StillStands(lines, n, t, s[k]);
    }
    PutKeys(s, key, value);
  }

  /** A pair takes the place of the one with its key, or goes to the end. */
  lemma PutKeys(s: Section, key: string, value: string)
    requires Distinct(s)
    ensures var r := Put(s, key, value);
            && Distinct(r) && |s| <= |r| <= |s| + 1 && (|r| == |s| <==> HasKey(s, key))
            && (forall k :: 0 <= k < |s| ==> r[k] == if s[k].key == key then Pair(key, value) else s[k])
            && (|r| == |s| + 1 ==> r[|s|] == Pair(key, value))
            && forall other :: HasKey(r, other) <==> HasKey(s, other) || other == key
  {
    var r := Put(s, key, value);
    PutDistinct(s, key, value);
    if k :| 0 <= k < |s| && s[k].key == key {
      PutAtKey(s, k, key, value);
      assert r[k].key == key;
      assert forall l :: 0 <= l < |s| ==> r[l].key == s[l].key;
    } else {
      PutNewKey(s, key, value);
      assert r[|s|].key == key;
      assert forall l :: 0 <= l < |s| ==> r[l] == s[l];
    }
  }

  lemma NoneHoldsLast(lines: seq<string>, n: nat, t: Target, s: Section)
    requires n < |lines| && HoldsLast(lines, n, t, s)
    requires forall key: string, v: string :: !SetsIn(lines, n, t, key, v)
    ensures HoldsLast(lines, n + 1, t, s)
  {
    hide SetsIn, Stands;
    forall k | 0 <= k < |s|
      ensures Stands(lines, n + 1, t, s[k])
    {
      StillStands(lines, n, t, s[k]);
    }
  }

  lemma PutKeepsOrder(lines: seq<string>, n: nat, t: Target, s: Section, key: string, value: string)
    requires n < |lines| && t != Nowhere && HoldsLast(lines, n, t, s) && SetsIn(lines, n, t, key, value)
    requires KeysAsSet(lines, t, s)
    ensures KeysAsSet(lines, t, Put(s, key, value))
  {
    hide SetsIn, Put;
    var r := Put(s, key, value);
    PutKeys(s, key, value);
    if !HasKey(s, key) {
      forall j: nat | FirstSet(lines, j, t, key)
        ensures j == n
      {
        assert j <= n;
      }
      forall k, i: nat | 0 <= k < |s| && FirstSet(lines, i, t, s[k].key)
        ensures i < n
      {
        assert Stands(lines, n, t, s[k]);
      }
    }
  }

  // ----- reading ----------------------------------------------------------------------------

  lemma LineIs(r: Reader, raw: string)
    requires Shaped(r.config)
    ensures HeaderIn(raw).InSection? ==> ReadLine(r, raw) == ReadHeader(r, HeaderIn(raw).name) && PairIn(raw) == []
    ensures HeaderIn(raw).NoSection? ==>
              ReadLine(r, raw) == if PairIn(raw) == [] then r else ReadPair(r, PairIn(raw)[0].key, PairIn(raw)[0].value)
  {
    hide Strip, Mark, ReadHeader, ReadPair, Shaped;
  }

  lemma OpenedReads(r: Reader, name: string, t: Target)
    requires Shaped(r.config)
    ensures var u := ReadHeader(r, name);
            && u.current == InSection(name) && Get(u.config, t) == Get(r.config, t)
            && (forall n: nat :: n in u.config.tgRules <==> n in r.config.tgRules || TargetOf(name) == ToTg(n))
            && (forall m: string :: m in u.config.trunks <==> m in r.config.trunks || TargetOf(name) == ToTrunk(m))
  {
    hide TargetOf;
  }

  lemma PairReads(r: Reader, key: string, value: string, t: Target)
    requires Shaped(r.config) && t != Nowhere
    ensures var u := ReadPair(r, key, value);
            && u.current == r.current
            && Get(u.config, t) == if r.current.InSection? && TargetOf(r.current.name) == t
                                   then Put(Get(r.config, t), StoredKey(t, key), value) else Get(r.config, t)
  {
    hide TargetOf, Put, StoredKey;
  }

  /** The reader before line n. */
  function ReaderAt(lines: seq<string>, n: nat): (r: Reader)
    requires n <= |lines|
    ensures Shaped(r.config)
  {
    EmptyIsShaped();
    ReadLines(Reader(EMPTY, NoSection), lines[..n])
  }

  lemma ReaderStep(lines: seq<string>, n: nat)
    requires n < |lines|
    ensures ReaderAt(lines, n + 1) == ReadLine(ReaderAt(lines, n), lines[n])
  {
    hide ReadLine, Shaped;
    assert lines[..n + 1][..n] == lines[..n];
  }

  lemma {:induction false} CurrentIs(lines: seq<string>, n: nat)
    requires n <= |lines|
    ensures ReaderAt(lines, n).current == CurrentAt(lines, n)
  {
    if n > 0 {
      hide ReaderAt, ReadLine, HeaderIn, PairIn, TargetOf, Shaped;
      CurrentIs(lines, n - 1);
      ReaderStep(lines, n - 1);
      LineIs(ReaderAt(lines, n - 1), lines[n - 1]);
    }
  }

  lemma SectionStep(lines: seq<string>, n: nat, t: Target)
    requires n < |lines| && t != Nowhere
    ensures var s, p := Get(ReaderAt(lines, n).config, t), StoredAt(lines, n, t);
            Get(ReaderAt(lines, n + 1).config, t) == if p == [] then s else Put(s, p[0].key, p[0].value)
  {
    hide ReaderAt, ReadLine, ReadHeader, ReadPair, HeaderIn, PairIn, TargetOf, StoredKey, Get, Put, Shaped;
    var r := ReaderAt(lines, n);
    ReaderStep(lines, n);
    CurrentIs(lines, n);
    LineIs(r, lines[n]);
    if HeaderIn(lines[n]).InSection? {
      OpenedReads(r, HeaderIn(lines[n]).name, t);
    } else if PairIn(lines[n]) != [] {
      PairReads(r, PairIn(lines[n])[0].key, PairIn(lines[n])[0].value, t);
    }
  }

  lemma NothingHeld(lines: seq<string>, t: Target)
    ensures HoldsLast(lines, 0, t, Get(ReaderAt(lines, 0).config, t))
    ensures KeysAsSet(lines, t, Get(ReaderAt(lines, 0).config, t))
  {
    hide SetsIn, Split;
    EmptyIsShaped();
    assert Get(ReaderAt(lines, 0).config, t) == [];
  }

  /** Line n keeps both properties. */
  lemma LineHolds(lines: seq<string>, n: nat, t: Target, s: Section)
    requires n < |lines| && t != Nowhere && HoldsLast(lines, n, t, s) && KeysAsSet(lines, t, s)
    ensures var p := StoredAt(lines, n, t);
            var r := if p == [] then s else Put(s, p[0].key, p[0].value);
            HoldsLast(lines, n + 1, t, r) && KeysAsSet(lines, t, r)
  {
    hide HoldsLast, KeysAsSet, Put, SetsIn, StoredAt;
    var p := StoredAt(lines, n, t);
    forall key: string, v: string
      ensures SetsIn(lines, n, t, key, v) <==> p == [Pair(key, v)]
    {
      SetsInIff(lines, n, t, key, v);
    }
    if p == [] {
      NoneHoldsLast(lines, n, t, s);
    } else {
      assert p == [Pair(p[0].key, p[0].value)];
      PutHoldsLast(lines, n, t, s, p[0].key, p[0].value);
      PutKeepsOrder(lines, n, t, s, p[0].key, p[0].value);
    }
  }

  lemma {:induction false} SectionHolds(lines: seq<string>, n: nat, t: Target)
    requires n <= |lines| && t != Nowhere
    ensures HoldsLast(lines, n, t, Get(ReaderAt(lines, n).config, t))
    ensures KeysAsSet(lines, t, Get(ReaderAt(lines, n).config, t))
  {
    hide ReaderAt, Get, HoldsLast, KeysAsSet, Put, StoredAt, Shaped;
    if n == 0 {
      NothingHeld(lines, t);
    } else {
      SectionHolds(lines, n - 1, t);
      SectionStep(lines, n - 1, t);
      LineHolds(lines, n - 1, t, Get(ReaderAt(lines, n - 1).config, t));
    }
  }

  // ----- which sections there are -----------------------------------------------------------

  lemma OpenedStep(lines: seq<string>, n: nat, t: Target)
    requires n < |lines| && t != Nowhere
    ensures (Opened(lines, n + 1, t) <==>
             Opened(lines, n, t) || (HeaderIn(lines[n]).InSection? && TargetOf(HeaderIn(lines[n]).name) == t))
  {
    hide Opens, Names, HeaderIn, TargetOf;
    forall name: string
      ensures Opens(lines[n], name) <==> HeaderIn(lines[n]) == InSection(name)
      ensures Names(t, name) <==> TargetOf(name) == t
    {
      OpensIff(lines[n], name);
      NamesIff(t, name);
    }
    if HeaderIn(lines[n]).InSection? && TargetOf(HeaderIn(lines[n]).name) == t {
      assert Opens(lines[n], HeaderIn(lines[n]).name);
    }
  }

  lemma CurrentIsOpened(lines: seq<string>, n: nat)
    requires n <= |lines| && CurrentAt(lines, n).InSection? && TargetOf(CurrentAt(lines, n).name) != Nowhere
    ensures Opened(lines, n, TargetOf(CurrentAt(lines, n).name))
  {
    hide Opens, Names, HeaderIn, TargetOf;
    var name := CurrentAt(lines, n).name;
    NamesIff(TargetOf(name), name);
    UnderIff(lines, n, name);
    var h: nat :| LastHeader(lines, n, h, name);
  }

  lemma PairOpens(r: Reader, key: string, value: string)
    requires Shaped(r.config)
    ensures var u := ReadPair(r, key, value);
            && (forall n: nat :: n in u.config.tgRules <==>
                  n in r.config.tgRules || (r.current.InSection? && TargetOf(r.current.name) == ToTg(n)))
            && (forall m: string :: m in u.config.trunks <==>
                  m in r.config.trunks || (r.current.InSection? && TargetOf(r.current.name) == ToTrunk(m)))
  {
    hide TargetOf, Put, StoredKey;
  }

  lemma {:induction false} SectionsOpened(lines: seq<string>, n: nat)
    requires n <= |lines|
    ensures var c := ReaderAt(lines, n).config;
            && (forall tg: nat :: tg in c.tgRules <==> Opened(lines, n, ToTg(tg)))
            && (forall m: string :: m in c.trunks <==> Opened(lines, n, ToTrunk(m)))
  {
    hide ReaderAt, ReadLine, ReadHeader, ReadPair, HeaderIn, PairIn, TargetOf, Shaped, Opened;
    if n == 0 {
      NothingOpened(lines);
    } else {
      var r := ReaderAt(lines, n - 1);
      SectionsOpened(lines, n - 1);
      ReaderStep(lines, n - 1);
      LineIs(r, lines[n - 1]);
      CurrentIs(lines, n - 1);
      forall tg: nat
        ensures (Opened(lines, n, ToTg(tg)) <==>
                 Opened(lines, n - 1, ToTg(tg)) ||
                 (HeaderIn(lines[n - 1]).InSection? && TargetOf(HeaderIn(lines[n - 1]).name) == ToTg(tg)))
      {
        OpenedStep(lines, n - 1, ToTg(tg));
      }
      forall m: string
        ensures (Opened(lines, n, ToTrunk(m)) <==>
                 Opened(lines, n - 1, ToTrunk(m)) ||
                 (HeaderIn(lines[n - 1]).InSection? && TargetOf(HeaderIn(lines[n - 1]).name) == ToTrunk(m)))
      {
        OpenedStep(lines, n - 1, ToTrunk(m));
      }
      if HeaderIn(lines[n - 1]).InSection? {
        OpenedReads(r, HeaderIn(lines[n - 1]).name, Nowhere);
      } else if PairIn(lines[n - 1]) != [] {
        PairOpens(r, PairIn(lines[n - 1])[0].key, PairIn(lines[n - 1])[0].value);
        if r.current.InSection? && TargetOf(r.current.name) != Nowhere {
          CurrentIsOpened(lines, n - 1);
        }
      }
    }
  }

  lemma NothingOpened(lines: seq<string>)
    ensures var c := ReaderAt(lines, 0).config;
            && (forall tg: nat :: tg in c.tgRules <==> Opened(lines, 0, ToTg(tg)))
            && (forall m: string :: m in c.trunks <==> Opened(lines, 0, ToTrunk(m)))
  {
    hide Opens, Names, Split;
    EmptyIsShaped();
  }

  // ----- what a file says -------------------------------------------------------------------

  /** The lines of a text are the only ones without breaks that make it up, put together with breaks between them. */
  lemma {:induction false} SplitIsLines(text: string)
    ensures Join(Split(text)) == text && forall k :: 0 <= k < |Split(text)| ==> '\n' !in Split(text)[k]
  {
    forall k | 0 <= k < |Split(text)|
      ensures '\n' !in Split(text)[k]
    {
      SplitHasNoBreaks(text, k);
    }
    if |text| > 0 {
      SplitIsLines(text[1..]);
      var rest := Split(text[1..]);
      assert text == [text[0]] + text[1..];
      if text[0] != '\n' {
        assert Split(text)[1..] == rest[1..];
      }
    }
  }

  lemma LoadedIs(text: string)
    ensures var lines := Split(text);
            var c, d := Loaded(text), ReaderAt(lines, |lines|).config;
            && c.trunks == d.trunks && c.tgRules == d.tgRules
            && c.plain[Users] == Sort(d.plain[Users]) && c.plain[Passwords] == Sort(d.plain[Passwords])
            && forall p: Plain | p != Users && p != Passwords :: p in d.plain && c.plain[p] == d.plain[p]
  {
    hide ReadLines, Sort;
    var lines := Split(text);
    hide Split;
    assert lines[..|lines|] == lines;
  }

  lemma GetIs(c: Config)
    requires Shaped(c)
    ensures forall p: Plain :: p in c.plain && Get(c, ToPlain(p)) == c.plain[p]
    ensures forall n: nat :: n in c.tgRules ==> Get(c, ToTg(n)) == c.tgRules[n]
    ensures forall m: string :: m in c.trunks ==> Get(c, ToTrunk(m)) == c.trunks[m]
  {
  }

  /** Sorting moves pairs, no more. */
  lemma SortedHolds(lines: seq<string>, t: Target, s: Section)
    requires HoldsLast(lines, |lines|, t, s)
    ensures HoldsLast(lines, |lines|, t, Sort(s)) && Sorted(Sort(s))
  {
    hide SetsIn, Stands, Sort, Sorted;
    SortSorts(s);
    var r := Sort(s);
    forall k | 0 <= k < |r|
      ensures Stands(lines, |lines|, t, r[k])
    {
      assert r[k] in s;
    }
    forall key | HasKey(s, key)
      ensures HasKey(r, key)
    {
      var k :| 0 <= k < |s| && s[k].key == key;
      assert s[k] in r;
    }
  }

  lemma PlainHolds(text: string, p: Plain)
    ensures var lines, s := Split(text), Loaded(text).plain[p];
            && HoldsLast(lines, |lines|, ToPlain(p), s)
            && if p == Users || p == Passwords then Sorted(s) else KeysAsSet(lines, ToPlain(p), s)
  {
    hide ReaderAt, Get, HoldsLast, KeysAsSet, Finished, Loaded, Sort, Sorted, Split;
    var lines := Split(text);
    var c := ReaderAt(lines, |lines|).config;
    LoadedIs(text);
    GetIs(c);
    SectionHolds(lines, |lines|, ToPlain(p));
    if p == Users || p == Passwords {
      SortedHolds(lines, ToPlain(p), c.plain[p]);
    }
  }

  lemma TgsHold(text: string)
    ensures var lines, c := Split(text), Loaded(text);
            && (forall n: nat :: n in c.tgRules <==> Opened(lines, |lines|, ToTg(n)))
            && (forall n: nat | n in c.tgRules ::
                  HoldsLast(lines, |lines|, ToTg(n), c.tgRules[n]) && KeysAsSet(lines, ToTg(n), c.tgRules[n]))
  {
    hide ReaderAt, Get, HoldsLast, KeysAsSet, Opened, Loaded, Shaped, Sort, Split;
    var lines, c := Split(text), Loaded(text);
    LoadedIs(text);
    GetIs(ReaderAt(lines, |lines|).config);
    SectionsOpened(lines, |lines|);
    forall n: nat | n in c.tgRules
      ensures HoldsLast(lines, |lines|, ToTg(n), c.tgRules[n]) && KeysAsSet(lines, ToTg(n), c.tgRules[n])
    {
      SectionHolds(lines, |lines|, ToTg(n));
    }
  }

  lemma TrunksHold(text: string)
    ensures var lines, c := Split(text), Loaded(text);
            && (forall m: string :: m in c.trunks <==> Opened(lines, |lines|, ToTrunk(m)))
            && (forall m: string | m in c.trunks ::
                  HoldsLast(lines, |lines|, ToTrunk(m), c.trunks[m]) && KeysAsSet(lines, ToTrunk(m), c.trunks[m]))
  {
    hide ReaderAt, Get, HoldsLast, KeysAsSet, Opened, Loaded, Shaped, Sort, Split;
    var lines, c := Split(text), Loaded(text);
    LoadedIs(text);
    GetIs(ReaderAt(lines, |lines|).config);
    SectionsOpened(lines, |lines|);
    forall m: string | m in c.trunks
      ensures HoldsLast(lines, |lines|, ToTrunk(m), c.trunks[m]) && KeysAsSet(lines, ToTrunk(m), c.trunks[m])
    {
      SectionHolds(lines, |lines|, ToTrunk(m));
    }
  }

  /** The value of every key after loading is that of the last line that sets it under its section. Keys stand in the
      order in which the file sets them first, but for users and passwords, which are sorted. Talkgroups and trunks are
      those that have a header. */
  lemma ValueIsLast(text: string)
    ensures var lines, c := Split(text), Loaded(text);
            && (forall p: Plain :: HoldsLast(lines, |lines|, ToPlain(p), c.plain[p]))
            && (forall p: Plain | p != Users && p != Passwords :: KeysAsSet(lines, ToPlain(p), c.plain[p]))
            && Sorted(c.plain[Users]) && Sorted(c.plain[Passwords])
            && (forall n: nat :: n in c.tgRules <==> Opened(lines, |lines|, ToTg(n)))
            && (forall m: string :: m in c.trunks <==> Opened(lines, |lines|, ToTrunk(m)))
            && (forall n: nat | n in c.tgRules ::
                  HoldsLast(lines, |lines|, ToTg(n), c.tgRules[n]) && KeysAsSet(lines, ToTg(n), c.tgRules[n]))
            && (forall m: string | m in c.trunks ::
                  HoldsLast(lines, |lines|, ToTrunk(m), c.trunks[m]) && KeysAsSet(lines, ToTrunk(m), c.trunks[m]))
  {
    hide HoldsLast, KeysAsSet, Opened, Loaded, Sorted, Split;
    TgsHold(text);
    TrunksHold(text);
    forall p: Plain
      ensures HoldsLast(Split(text), |Split(text)|, ToPlain(p), Loaded(text).plain[p])
      ensures p != Users && p != Passwords ==> KeysAsSet(Split(text), ToPlain(p), Loaded(text).plain[p])
      ensures p == Users || p == Passwords ==> Sorted(Loaded(text).plain[p])
    {
      PlainHolds(text, p);
    }
  }

  // ----- what a saved file looks like -------------------------------------------------------

  function Entries(s: Section): seq<string> {
    seq(|s|, k requires 0 <= k < |s| => s[k].key + "=" + s[k].value)
  }

  function Headed(name: string, s: Section): seq<string> { ["[" + name + "]"] + Entries(s) }

  /** Some sections are written only when they hold something, with a blank line behind or before them. */
  function IfAnyThenGap(name: string, s: Section): seq<string> {
    if s == [] then [] else Headed(name, s) + [""]
  }

  function GapIfAny(name: string, s: Section): seq<string> {
    if s == [] then [] else [""] + Headed(name, s)
  }

  function Concat(parts: seq<seq<string>>): seq<string> {
    if |parts| == 0 then [] else Concat(parts[..|parts| - 1]) + parts[|parts| - 1]
  }

  lemma {:induction false} EntriesAre(s: Section)
    ensures PairLines(s) == Entries(s)
  {
    if |s| > 0 {
      EntriesAre(s[..|s| - 1]);
      assert Entries(s) == Entries(s[..|s| - 1]) + [s[|s| - 1].key + "=" + s[|s| - 1].value];
    }
  }

  lemma BlocksAre(name: string, s: Section)
    ensures Block(name, s) == Headed(name, s) && Before(name, s) == [""] + Headed(name, s)
  {
    EntriesAre(s);
  }

  lemma {:induction false} TrunksAre(c: Config, names: seq<string>)
    requires forall k :: 0 <= k < |names| ==> names[k] in c.trunks
    ensures (TrunkLines(c, names) ==
             Concat(seq(|names|, k requires 0 <= k < |names| => [""] + Headed(names[k], c.trunks[names[k]]))))
  {
    hide Before, Headed;
    if |names| > 0 {
      var n := |names| - 1;
      TrunksAre(c, names[..n]);
      BlocksAre(names[n], c.trunks[names[n]]);
      var parts := seq(|names|, k requires 0 <= k < |names| => [""] + Headed(names[k], c.trunks[names[k]]));
      assert parts[..n] == seq(n, k requires 0 <= k < n => [""] + Headed(names[..n][k], c.trunks[names[..n][k]]));
    }
  }

  lemma {:induction false} TgsAre(c: Config, tgs: seq<nat>)
    requires forall k :: 0 <= k < |tgs| ==> tgs[k] in c.tgRules
    ensures (TgLines(c, tgs) ==
             Concat(seq(|tgs|, k requires 0 <= k < |tgs| => [""] + Headed("TG#" + Decimal(tgs[k]), c.tgRules[tgs[k]]))))
  {
    hide Before, Headed, Decimal;
    if |tgs| > 0 {
      var n := |tgs| - 1;
      TgsAre(c, tgs[..n]);
      BlocksAre(TgName(tgs[n]), c.tgRules[tgs[n]]);
      var parts :=
        seq(|tgs|, k requires 0 <= k < |tgs| => [""] + Headed("TG#" + Decimal(tgs[k]), c.tgRules[tgs[k]]));
      assert parts[..n] ==
             seq(n, k requires 0 <= k < n => [""] + Headed("TG#" + Decimal(tgs[..n][k]), c.tgRules[tgs[..n][k]]));
    }
  }

  lemma {:induction false} FlatAppends(c: Config, items: seq<Item>, more: seq<Item>)
    requires Shaped(c)
    ensures Flat(c, items + more) == Flat(c, items) + Flat(c, more)
    decreases |more|
  {
    hide ItemLines, Shaped;
    if |more| == 0 {
      assert items + more == items;
    } else {
      var n := |more| - 1;
      FlatAppends(c, items, more[..n]);
      assert (items + more)[..|items| + n] == items + more[..n];
    }
  }

  lemma FlatOne(c: Config, item: Item)
    requires Shaped(c)
    ensures Flat(c, [item]) == ItemLines(c, item)
  {
    hide ItemLines, Shaped;
    assert [item][..0] == [];
  }

  lemma FlatTwo(c: Config, a: Item, b: Item)
    requires Shaped(c)
    ensures Flat(c, [a, b]) == ItemLines(c, a) + ItemLines(c, b)
  {
    hide ItemLines, Shaped;
    FlatAppends(c, [a], [b]);
    FlatOne(c, a);
    FlatOne(c, b);
    assert [a] + [b] == [a, b];
  }

  lemma ItemIs(c: Config, p: Plain, style: Style)
    requires Shaped(c)
    ensures var name, s := PlainName(p), c.plain[p];
            ItemLines(c, Item(p, style)) ==
            match style
            case Always => Headed(name, s)
            case GapAfter => Headed(name, s) + [""]
            case IfAnyGapAfter => IfAnyThenGap(name, s)
            case IfAnyGapBefore => GapIfAny(name, s)
  {
    hide Headed, Block, Before, PlainName;
    BlocksAre(PlainName(p), c.plain[p]);
  }

  lemma FrontIs(c: Config)
    requires Shaped(c)
    ensures Flat(c, FRONT) ==
            Headed("GLOBAL", c.plain[Global]) + [""] + IfAnyThenGap("ROOT_CA", c.plain[RootCa])
            + (IfAnyThenGap("ISSUING_CA", c.plain[IssuingCa]) + IfAnyThenGap("SERVER_CERT", c.plain[ServerCert]))
            + (Headed("USERS", c.plain[Users]) + [""] + Headed("PASSWORDS", c.plain[Passwords]))
  {
    hide Flat, Headed, IfAnyThenGap, ItemLines;
    FlatAppends(c, FRONT[..2], FRONT[2..4]);
    FlatAppends(c, FRONT[..4], FRONT[4..]);
    assert FRONT[..2] + FRONT[2..4] == FRONT[..4] && FRONT[..4] + FRONT[4..] == FRONT;
    FlatTwo(c, Item(Global, GapAfter), Item(RootCa, IfAnyGapAfter));
    FlatTwo(c, Item(IssuingCa, IfAnyGapAfter), Item(ServerCert, IfAnyGapAfter));
    FlatTwo(c, Item(Users, GapAfter), Item(Passwords, Always));
    assert FRONT[..2] == [Item(Global, GapAfter), Item(RootCa, IfAnyGapAfter)];
    assert FRONT[2..4] == [Item(IssuingCa, IfAnyGapAfter), Item(ServerCert, IfAnyGapAfter)];
    assert FRONT[4..] == [Item(Users, GapAfter), Item(Passwords, Always)];
    ItemIs(c, Global, GapAfter);
    ItemIs(c, RootCa, IfAnyGapAfter);
    ItemIs(c, IssuingCa, IfAnyGapAfter);
    ItemIs(c, ServerCert, IfAnyGapAfter);
    ItemIs(c, Users, GapAfter);
    ItemIs(c, Passwords, Always);
  }

  lemma BackIs(c: Config)
    requires Shaped(c)
    ensures Flat(c, BACK) ==
            GapIfAny("SATELLITE", c.plain[Satellite]) + GapIfAny("TWIN", c.plain[Twin])
            + (GapIfAny("REDIS", c.plain[Redis]) + GapIfAny("MQTT", c.plain[Mqtt]))
  {
    hide Flat, GapIfAny, ItemLines;
    FlatAppends(c, BACK[..2], BACK[2..]);
    assert BACK[..2] + BACK[2..] == BACK;
    FlatTwo(c, Item(Satellite, IfAnyGapBefore), Item(Twin, IfAnyGapBefore));
    FlatTwo(c, Item(Redis, IfAnyGapBefore), Item(Mqtt, IfAnyGapBefore));
    assert BACK[..2] == [Item(Satellite, IfAnyGapBefore), Item(Twin, IfAnyGapBefore)];
    assert BACK[2..] == [Item(Redis, IfAnyGapBefore), Item(Mqtt, IfAnyGapBefore)];
    ItemIs(c, Satellite, IfAnyGapBefore);
    ItemIs(c, Twin, IfAnyGapBefore);
    ItemIs(c, Redis, IfAnyGapBefore);
    ItemIs(c, Mqtt, IfAnyGapBefore);
  }

  /** The file that save writes, line by line. */
  lemma SavedFile(c: Config, names: seq<string>, tgs: seq<nat>)
    requires Shaped(c) && Listed(c, names, tgs)
    ensures SavedText(c, names, tgs) == Join(
              Headed("GLOBAL", c.plain[Global]) + [""] + IfAnyThenGap("ROOT_CA", c.plain[RootCa])
              + (IfAnyThenGap("ISSUING_CA", c.plain[IssuingCa]) + IfAnyThenGap("SERVER_CERT", c.plain[ServerCert]))
              + (Headed("USERS", c.plain[Users]) + [""] + Headed("PASSWORDS", c.plain[Passwords]))
              + Concat(seq(|names|, k requires 0 <= k < |names| => [""] + Headed(names[k], c.trunks[names[k]])))
              + (GapIfAny("SATELLITE", c.plain[Satellite]) + GapIfAny("TWIN", c.plain[Twin])
                 + (GapIfAny("REDIS", c.plain[Redis]) + GapIfAny("MQTT", c.plain[Mqtt])))
              + Concat(seq(|tgs|, k requires 0 <= k < |tgs| =>
                             [""] + Headed("TG#" + Decimal(tgs[k]), c.tgRules[tgs[k]])))
              + [""])
  {
    hide Flat, Headed, TrunkLines, TgLines, IfAnyThenGap, GapIfAny, Concat, Join;
    FrontIs(c);
    BackIs(c);
    TrunksAre(c, names);
    TgsAre(c, tgs);
  }

  /** The order of names is the order of dictionaries: the first difference decides, or else the length. */
  lemma {:induction false} LessIsLexicographic(a: string, b: string)
    ensures Less(a, b) <==>
            exists k :: 0 <= k <= |a| && k < |b| && a[..k] == b[..k] && (k == |a| || a[k] < b[k])
  {
    if |a| > 0 && |b| > 0 && a[0] == b[0] {
      LessIsLexicographic(a[1..], b[1..]);
      var c, d := a[1..], b[1..];
      if k :| 0 <= k <= |c| && k < |d| && c[..k] == d[..k] && (k == |c| || c[k] < d[k]) {
        assert a[..k + 1] == [a[0]] + c[..k] && b[..k + 1] == [b[0]] + d[..k];
      }
      if k :| 0 <= k <= |a| && k < |b| && a[..k] == b[..k] && (k == |a| || a[k] < b[k]) {
        assert k > 0 && a[1..][..k - 1] == a[..k][1..] && b[1..][..k - 1] == b[..k][1..];
      }
    } else if |a| > 0 && |b| > 0 && a[0] < b[0] {
      assert a[..0] == b[..0];
    } else if |a| == 0 && |b| > 0 {
      assert a[..0] == b[..0];
    } else if |a| > 0 && |b| > 0 {
      forall k | 0 < k <= |a| && k < |b|
        ensures a[..k] != b[..k]
      {
        assert a[..k][0] != b[..k][0];
      }
    }
  }
}
