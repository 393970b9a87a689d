/** svxreflector.conf as the dashboard reads and writes it (app/services/reflector_config.rb:68-247). A Ruby hash with
    string values is a list of pairs in insertion order. The ten flat hashes of the class are one map by section. */
module ReflectorConfig {
  import opened ConfigText

  datatype Pair = Pair(key: string, value: string)
  type Section = seq<Pair>

  datatype Plain = Global | RootCa | IssuingCa | ServerCert | Users | Passwords | Satellite | Twin | Redis | Mqtt

  const ALL: set<Plain> := {Global, RootCa, IssuingCa, ServerCert, Users, Passwords, Satellite, Twin, Redis, Mqtt}

  datatype Config = Config(plain: map<Plain, Section>, trunks: map<string, Section>, tgRules: map<nat, Section>)

  const EMPTY := Config(map p | p in ALL :: [], map[], map[])

  // ----- section names ----------------------------------------------------------------------

  function PlainName(p: Plain): string {
    match p
    case Global => "GLOBAL"
    case RootCa => "ROOT_CA"
    case IssuingCa => "ISSUING_CA"
    case ServerCert => "SERVER_CERT"
    case Users => "USERS"
    case Passwords => "PASSWORDS"
    case Satellite => "SATELLITE"
    case Twin => "TWIN"
    case Redis => "REDIS"
    case Mqtt => "MQTT"
  }

  predicate IsWord(c: char) { 'a' <= c <= 'z' || 'A' <= c <= 'Z' || '0' <= c <= '9' || c == '_' }

  const TG_PREFIX := "TG#"
  const TRUNK_PREFIX := "TRUNK_"

  predicate IsTg(name: string) {
    TG_PREFIX <= name && Digits(name[3..])
  }

  predicate IsTrunk(name: string) {
    TRUNK_PREFIX <= name && |name| > 6 && forall k :: 6 <= k < |name| ==> IsWord(name[k])
  }

  /** Where the pairs of a section go. */
  datatype Target = ToPlain(p: Plain) | ToTg(n: nat) | ToTrunk(name: string) | Nowhere

  function TargetOf(name: string): Target {
    if name == "GLOBAL" then ToPlain(Global)
    else if name == "ROOT_CA" then ToPlain(RootCa)
    else if name == "ISSUING_CA" then ToPlain(IssuingCa)
    else if name == "SERVER_CERT" then ToPlain(ServerCert)
    else if name == "USERS" then ToPlain(Users)
    else if name == "PASSWORDS" then ToPlain(Passwords)
    else if IsTg(name) then ToTg(ToInt(name[3..]))
    else if IsTrunk(name) then ToTrunk(name)
    else if name == "SATELLITE" then ToPlain(Satellite)
    else if name == "TWIN" then ToPlain(Twin)
    else if name == "REDIS" then ToPlain(Redis)
    else if name == "MQTT" then ToPlain(Mqtt)
    else Nowhere
  }

  function TgName(n: nat): string { TG_PREFIX + Decimal(n) }

  lemma PlainNamesAreTheirOwn(p: Plain)
    ensures TargetOf(PlainName(p)) == ToPlain(p)
  {
    var name := PlainName(p);
    assert name[0] == 'T' ==> p == Twin && name[1] == 'W';
    assert !(TG_PREFIX <= name) by { assert TG_PREFIX[1] == 'G'; }
    assert !(TRUNK_PREFIX <= name) by { assert TRUNK_PREFIX[1] == 'R'; }
  }

  lemma TgNamesAreTheirOwn(n: nat)
    ensures TargetOf(TgName(n)) == ToTg(n)
  {
    var name := TgName(n);
    assert name[3..] == Decimal(n);
    assert name[2] == '#';
    DecimalReads(n);
  }

  lemma TrunkNamesAreTheirOwn(name: string)
    requires IsTrunk(name)
    ensures TargetOf(name) == ToTrunk(name)
  {
    assert name[0] == 'T' && name[1] == 'R';
  }

  // ----- hashes -----------------------------------------------------------------------------

  predicate Distinct(s: Section) {
    forall i, j :: 0 <= i < j < |s| ==> s[i].key != s[j].key
  }

  /** hash[key] = value: a key keeps its place. */
  function Put(s: Section, key: string, value: string): (r: Section) {
    if |s| == 0 then [Pair(key, value)]
    else if s[0].key == key then [Pair(key, value)] + s[1..]
    else [s[0]] + Put(s[1..], key, value)
  }

  lemma {:induction false} PutMembers(s: Section, key: string, value: string)
    ensures forall p :: p in Put(s, key, value) ==> p in s || p == Pair(key, value)
  {
    if |s| > 0 && s[0].key != key {
      PutMembers(s[1..], key, value);
    }
  }

  lemma {:induction false} PutDistinct(s: Section, key: string, value: string)
    requires Distinct(s)
    ensures Distinct(Put(s, key, value))
  {
    if |s| > 0 && s[0].key != key {
      PutDistinct(s[1..], key, value);
      PutMembers(s[1..], key, value);
      var r := Put(s[1..], key, value);
      forall k | 0 <= k < |r| ensures r[k].key != s[0].key {
        assert r[k] in r;
      }
    }
  }

  lemma {:induction false} PutNewKey(s: Section, key: string, value: string)
    requires forall k :: 0 <= k < |s| ==> s[k].key != key
    ensures Put(s, key, value) == s + [Pair(key, value)]
  {
    if |s| > 0 {
      PutNewKey(s[1..], key, value);
      assert s == [s[0]] + s[1..];
    }
  }

  predicate Less(a: string, b: string) {
    if |b| == 0 then false
    else if |a| == 0 then true
    else a[0] < b[0] || (a[0] == b[0] && Less(a[1..], b[1..]))
  }

  lemma {:induction false} LessTotal(a: string, b: string)
    ensures Less(a, b) || Less(b, a) || a == b
  {
    if |a| > 0 && |b| > 0 && a[0] == b[0] {
      LessTotal(a[1..], b[1..]);
      assert a == [a[0]] + a[1..] && b == [b[0]] + b[1..];
    }
  }

  predicate Sorted(s: Section) {
    forall i :: 0 <= i < |s| - 1 ==> Less(s[i].key, s[i + 1].key)
  }

  function Insert(p: Pair, s: Section): Section {
    if |s| == 0 || Less(p.key, s[0].key) then [p] + s else [s[0]] + Insert(p, s[1..])
  }

  /** sort.to_h: by key, for the keys of a hash are distinct. */
  function Sort(s: Section): Section {
    if |s| == 0 then [] else Insert(s[0], Sort(s[1..]))
  }

  lemma {:induction false} InsertSorts(p: Pair, s: Section)
    requires Sorted(s) && forall k :: 0 <= k < |s| ==> s[k].key != p.key
    ensures Sorted(Insert(p, s))
    ensures |s| == 0 || Less(p.key, s[0].key) || Insert(p, s)[0] == s[0]
  {
    if |s| > 0 && !Less(p.key, s[0].key) {
      LessTotal(p.key, s[0].key);
      InsertSorts(p, s[1..]);
      var r := Insert(p, s[1..]);
      assert r[0] == p || r[0] == s[1];
    }
  }

  lemma {:induction false} InsertMembers(p: Pair, s: Section)
    ensures forall q :: q in Insert(p, s) <==> q == p || q in s
    ensures Distinct(s) && (forall k :: 0 <= k < |s| ==> s[k].key != p.key) ==> Distinct(Insert(p, s))
  {
    if |s| > 0 && !Less(p.key, s[0].key) {
      InsertMembers(p, s[1..]);
      assert s == [s[0]] + s[1..];
      var r := Insert(p, s[1..]);
      assert forall k :: 0 <= k < |r| ==> r[k] in r;
    }
  }

  lemma {:induction false} SortSorts(s: Section)
    requires Distinct(s)
    ensures Sorted(Sort(s)) && Distinct(Sort(s)) && forall q :: q in Sort(s) <==> q in s
  {
    if |s| > 0 {
      SortSorts(s[1..]);
      assert forall q :: q in Sort(s[1..]) ==> q.key != s[0].key;
      InsertSorts(s[0], Sort(s[1..]));
      InsertMembers(s[0], Sort(s[1..]));
      assert s == [s[0]] + s[1..];
    }
  }

  lemma {:induction false} SortedStays(s: Section)
    requires Sorted(s)
    ensures Sort(s) == s
  {
    if |s| > 0 {
      SortedStays(s[1..]);
      assert s == [s[0]] + s[1..];
      assert |s| > 1 ==> Less(s[0].key, s[1].key);
    }
  }

  // ----- reading ----------------------------------------------------------------------------

  predicate Shaped(c: Config) { forall p: Plain :: p in c.plain }

  function Get(c: Config, t: Target): Section
    requires Shaped(c)
  {
    match t
    case ToPlain(p) => c.plain[p]
    case ToTg(n) => if n in c.tgRules then c.tgRules[n] else []
    case ToTrunk(name) => if name in c.trunks then c.trunks[name] else []
    case Nowhere => []
  }

  function With(c: Config, t: Target, s: Section): (r: Config)
    requires Shaped(c)
    ensures Shaped(r)
  {
    match t
    case ToPlain(p) => c.(plain := c.plain[p := s])
    case ToTg(n) => c.(tgRules := c.tgRules[n := s])
    case ToTrunk(name) => c.(trunks := c.trunks[name := s])
    case Nowhere => c
  }

  /** The key under which a pair is stored: the legacy NAME of [MQTT] is MQTT_NAME today. */
  function StoredKey(t: Target, key: string): string {
    if t == ToPlain(Mqtt) && key == "NAME" then "MQTT_NAME" else key
  }

  datatype Current = NoSection | InSection(name: string)

  datatype Reader = Reader(config: Config, current: Current)

  predicate IsHeader(line: string) {
    |line| >= 3 && line[0] == '[' && line[|line| - 1] == ']'
  }

  /** The position of the first equals sign, or the length of the line. */
  function Mark(line: string): (i: nat)
    ensures i <= |line| && '=' !in line[..i] && (i < |line| ==> line[i] == '=')
  {
    if |line| == 0 || line[0] == '=' then 0 else 1 + Mark(line[1..])
  }

  /** One line. A section for a talkgroup or trunk exists from its header on. */
  function ReadLine(r: Reader, raw: string): (t: Reader)
    requires Shaped(r.config)
    ensures Shaped(t.config)
  {
    ReadStripped(r, Strip(raw))
  }

  function ReadStripped(r: Reader, line: string): (t: Reader)
    requires Shaped(r.config)
    ensures Shaped(t.config)
  {
    if |line| == 0 || line[0] == '#' then r
    else if IsHeader(line) then ReadHeader(r, line[1..|line| - 1])
    else if Mark(line) == |line| then r
    else ReadPair(r, Strip(line[..Mark(line)]), Strip(line[Mark(line) + 1..]))
  }

  function ReadHeader(r: Reader, name: string): (t: Reader)
    requires Shaped(r.config)
    ensures Shaped(t.config)
  {
    var t := TargetOf(name);
    Reader(if t.ToTg? || t.ToTrunk? then With(r.config, t, Get(r.config, t)) else r.config, InSection(name))
  }

  function ReadPair(r: Reader, key: string, value: string): (t: Reader)
    requires Shaped(r.config)
    ensures Shaped(t.config)
  {
    if r.current.NoSection? then r
    else
      var t := TargetOf(r.current.name);
      r.(config := With(r.config, t, Put(Get(r.config, t), StoredKey(t, key), value)))
  }

  function ReadLines(r: Reader, lines: seq<string>): (t: Reader)
    requires Shaped(r.config)
    ensures Shaped(t.config)
    decreases |lines|
  {
    if |lines| == 0 then r else ReadLine(ReadLines(r, lines[..|lines| - 1]), lines[|lines| - 1])
  }

  lemma EmptyIsShaped()
    ensures Shaped(EMPTY) && forall p: Plain :: EMPTY.plain[p] == []
  {
    forall p: Plain ensures p in ALL {
      match p case Global => case _ =>
    }
  }

  function Finished(c: Config): Config
    requires Shaped(c)
  {
    c.(plain := c.plain[Users := Sort(c.plain[Users])][Passwords := Sort(c.plain[Passwords])])
  }

  /** load, but for the part that asks Redis. */
  function Loaded(text: string): (c: Config)
    ensures Shaped(c)
  {
    EmptyIsShaped();
    Finished(ReadLines(Reader(EMPTY, NoSection), Split(text)).config)
  }

  /** What stands at a path. */
  datatype File = Missing | Holding(text: string)

  /** What load makes of it: a file that does not exist leaves the configuration as it is created. */
  function LoadedFrom(file: File): (c: Config)
    ensures Shaped(c)
  {
    EmptyIsShaped();
    match file
    case Missing => EMPTY
    case Holding(text) => Loaded(text)
  }

  // ----- writing ----------------------------------------------------------------------------

  function PairLines(s: Section): (lines: seq<string>)
    ensures |lines| == |s|
  {
    if |s| == 0 then [] else PairLines(s[..|s| - 1]) + [s[|s| - 1].key + "=" + s[|s| - 1].value]
  }

  function Block(name: string, s: Section): seq<string> {
    ["[" + name + "]"] + PairLines(s)
  }

  function Before(name: string, s: Section): seq<string> {
    [""] + Block(name, s)
  }

  function TrunkLines(c: Config, names: seq<string>): seq<string>
    requires forall k :: 0 <= k < |names| ==> names[k] in c.trunks
  {
    if |names| == 0 then []
    else
      var name := names[|names| - 1];
      TrunkLines(c, names[..|names| - 1]) + Before(name, c.trunks[name])
  }

  function TgLines(c: Config, tgs: seq<nat>): seq<string>
    requires forall k :: 0 <= k < |tgs| ==> tgs[k] in c.tgRules
  {
    if |tgs| == 0 then []
    else
      var n := tgs[|tgs| - 1];
      TgLines(c, tgs[..|tgs| - 1]) + Before(TgName(n), c.tgRules[n])
  }

  /** How save writes a flat section: always, always with a blank line behind it, or only when it holds something, with
      a blank line behind or before it. */
  datatype Style = Always | GapAfter | IfAnyGapAfter | IfAnyGapBefore

  datatype Item = Item(p: Plain, style: Style)

  const FRONT: seq<Item> := [
    Item(Global, GapAfter), Item(RootCa, IfAnyGapAfter), Item(IssuingCa, IfAnyGapAfter),
    Item(ServerCert, IfAnyGapAfter),
    Item(Users, GapAfter), Item(Passwords, Always)
  ]

  const BACK: seq<Item> := [
    Item(Satellite, IfAnyGapBefore), Item(Twin, IfAnyGapBefore), Item(Redis, IfAnyGapBefore), Item(Mqtt, IfAnyGapBefore)
  ]

  function ItemLines(c: Config, item: Item): seq<string>
    requires Shaped(c)
  {
    var name, s := PlainName(item.p), c.plain[item.p];
    match item.style
    case Always => Block(name, s)
    case GapAfter => Block(name, s) + [""]
    case IfAnyGapAfter => if |s| > 0 then Block(name, s) + [""] else []
    case IfAnyGapBefore => if |s| > 0 then Before(name, s) else []
  }

  function Flat(c: Config, items: seq<Item>): seq<string>
    requires Shaped(c)
  {
    if |items| == 0 then [] else Flat(c, items[..|items| - 1]) + ItemLines(c, items[|items| - 1])
  }

  /** The lines of save, with the trunks and talkgroups in the order given. */
  function SavedLines(c: Config, names: seq<string>, tgs: seq<nat>): seq<string>
    requires Shaped(c)
    requires forall k :: 0 <= k < |names| ==> names[k] in c.trunks
    requires forall k :: 0 <= k < |tgs| ==> tgs[k] in c.tgRules
  {
    Flat(c, FRONT) + TrunkLines(c, names) + Flat(c, BACK) + TgLines(c, tgs) + [""]
  }

  // ----- what load leaves behind ------------------------------------------------------------

  /** A pair that save writes as a line from which load gets the same pair. */
  predicate Clean(p: Pair) {
    && '\n' !in p.key && '\n' !in p.value && '=' !in p.key
    && Stripped(p.key) && Stripped(p.value)
    && (|p.key| > 0 ==> p.key[0] != '#')
    && !(|p.key| > 0 && p.key[0] == '[' && |p.value| > 0 && p.value[|p.value| - 1] == ']')
  }

  predicate CleanFor(t: Target, s: Section) {
    && Distinct(s)
    && (forall p :: p in s ==> Clean(p) && StoredKey(t, p.key) == p.key)
  }

  /** The hashes are hashes, every pair is clean, and the sections of trunks and talkgroups are named as such. */
  predicate CleanConfig(c: Config) {
    && Shaped(c)
    && (forall p: Plain :: CleanFor(ToPlain(p), c.plain[p]))
    && (forall name :: name in c.trunks ==> IsTrunk(name) && CleanFor(ToTrunk(name), c.trunks[name]))
    && (forall n :: n in c.tgRules ==> CleanFor(ToTg(n), c.tgRules[n]))
  }

  /** What a configuration must be like to survive being saved. */
  predicate WellFormed(c: Config) {
    CleanConfig(c) && Sorted(c.plain[Users]) && Sorted(c.plain[Passwords])
  }

  lemma PairOfLineIsClean(line: string)
    requires Stripped(line) && |line| > 0 && line[0] != '#' && !IsHeader(line) && Mark(line) < |line| && '\n' !in line
    ensures Clean(Pair(Strip(line[..Mark(line)]), Strip(line[Mark(line) + 1..])))
  {
    hide Strip, Stripped, IsSpace, Mark;
    var i := Mark(line);
    var a, b := line[..i], line[i + 1..];
    StripIsStripped(a);
    StripIsStripped(b);
    StripKeepsEnds(line, i);
    StripIsPart(a);
    StripIsPart(b);
    var key, value := Strip(a), Strip(b);
    assert forall c :: c in a || c in b ==> c in line;
    assert |key| > 0 ==> i > 0 && key[0] == line[0];
    assert |value| > 0 ==> i + 1 < |line| && value[|value| - 1] == line[|line| - 1];
  }

  lemma StripIsPart(s: string)
    ensures |Strip(s)| <= |s| && forall c :: c in Strip(s) ==> c in s
  {
    var r := StripRight(s);
    assert forall c :: c in r ==> c in s;
    assert forall c :: c in StripLeft(r) ==> c in r;
  }

  lemma StoredIsClean(t: Target, p: Pair)
    requires Clean(p)
    ensures Clean(Pair(StoredKey(t, p.key), p.value)) && StoredKey(t, StoredKey(t, p.key)) == StoredKey(t, p.key)
  {
  }

  lemma PutKeepsClean(t: Target, s: Section, p: Pair)
    requires CleanFor(t, s) && Clean(p)
    ensures CleanFor(t, Put(s, StoredKey(t, p.key), p.value))
  {
    hide Clean, Put, Distinct;
    PutMembers(s, StoredKey(t, p.key), p.value);
    PutDistinct(s, StoredKey(t, p.key), p.value);
    StoredIsClean(t, p);
  }

  lemma WithKeepsClean(c: Config, t: Target, s: Section)
    requires CleanConfig(c) && CleanFor(t, s) && (t.ToTrunk? ==> IsTrunk(t.name))
    ensures CleanConfig(With(c, t, s))
  {
    hide CleanFor, IsTrunk;
  }

  lemma GetIsClean(c: Config, t: Target)
    requires CleanConfig(c)
    ensures CleanFor(t, Get(c, t))
  {
  }

  lemma TrunkTargets(name: string)
    ensures TargetOf(name).ToTrunk? ==> IsTrunk(TargetOf(name).name)
  {
  }

  lemma ReadPairKeepsClean(r: Reader, p: Pair)
    requires CleanConfig(r.config) && Clean(p)
    ensures Shaped(r.config) && CleanConfig(ReadPair(r, p.key, p.value).config)
  {
    CleanIsShaped(r.config);
    hide CleanConfig, CleanFor, Clean, TargetOf, Put, StoredKey, Get, With, IsTrunk, Shaped;
    if r.current.InSection? {
      var t := TargetOf(r.current.name);
      TrunkTargets(r.current.name);
      GetIsClean(r.config, t);
      PutKeepsClean(t, Get(r.config, t), p);
      WithKeepsClean(r.config, t, Put(Get(r.config, t), StoredKey(t, p.key), p.value));
    }
  }

  lemma ReadHeaderKeepsClean(r: Reader, name: string)
    requires CleanConfig(r.config)
    ensures Shaped(r.config) && CleanConfig(ReadHeader(r, name).config)
  {
    CleanIsShaped(r.config);
    hide CleanConfig, CleanFor, TargetOf, Get, With, IsTrunk, Shaped;
    var t := TargetOf(name);
    TrunkTargets(name);
    GetIsClean(r.config, t);
    WithKeepsClean(r.config, t, Get(r.config, t));
  }

  lemma ReadStrippedKeepsClean(r: Reader, line: string)
    requires CleanConfig(r.config) && '\n' !in line && Stripped(line)
    ensures Shaped(r.config) && CleanConfig(ReadStripped(r, line).config)
  {
    CleanIsShaped(r.config);
    hide CleanConfig, Clean, Shaped, Strip, Stripped, ReadPair, ReadHeader, Mark;
    if |line| == 0 || line[0] == '#' {
    } else if IsHeader(line) {
      ReadHeaderKeepsClean(r, line[1..|line| - 1]);
    } else if Mark(line) < |line| {
      PairOfLineIsClean(line);
      ReadPairKeepsClean(r, Pair(Strip(line[..Mark(line)]), Strip(line[Mark(line) + 1..])));
    }
  }

  lemma ReadLineKeepsClean(r: Reader, raw: string)
    requires CleanConfig(r.config) && '\n' !in raw
    ensures Shaped(r.config) && CleanConfig(ReadLine(r, raw).config)
  {
    CleanIsShaped(r.config);
    hide CleanConfig, Shaped, Strip, Stripped, ReadStripped;
    StripIsStripped(raw);
    StripIsPart(raw);
    ReadStrippedKeepsClean(r, Strip(raw));
  }

  lemma CleanIsShaped(c: Config)
    requires CleanConfig(c)
    ensures Shaped(c)
  {
  }

  lemma {:induction false} ReadLinesKeepsClean(r: Reader, lines: seq<string>)
    requires CleanConfig(r.config) && forall k :: 0 <= k < |lines| ==> '\n' !in lines[k]
    ensures CleanConfig(ReadLines(r, lines).config)
    decreases |lines|
  {
    CleanIsShaped(r.config);
    hide CleanConfig, ReadLine;
    if |lines| > 0 {
      var k := |lines| - 1;
      ReadLinesKeepsClean(r, lines[..k]);
      ReadLineKeepsClean(ReadLines(r, lines[..k]), lines[k]);
    }
  }

  /** Whatever stands in the file, what is loaded is well formed. */
  lemma LoadedIsWellFormed(text: string)
    ensures WellFormed(Loaded(text))
  {
    var lines := Split(text);
    forall k | 0 <= k < |lines| ensures '\n' !in lines[k] {
      SplitHasNoBreaks(text, k);
    }
    EmptyIsClean();
    hide CleanConfig;
    ReadLinesKeepsClean(Reader(EMPTY, NoSection), lines);
    FinishedIsWellFormed(ReadLines(Reader(EMPTY, NoSection), lines).config);
  }

  lemma EmptyIsClean()
    ensures CleanConfig(EMPTY) && Shaped(EMPTY)
  {
    EmptyIsShaped();
  }

  lemma FinishedIsWellFormed(c: Config)
    requires CleanConfig(c)
    ensures Shaped(c) && WellFormed(Finished(c))
  {
    hide Clean, Sort, Sorted, StoredKey;
    SortSorts(c.plain[Users]);
    SortSorts(c.plain[Passwords]);
    assert CleanFor(ToPlain(Users), c.plain[Users]) && CleanFor(ToPlain(Passwords), c.plain[Passwords]);
    forall p: Plain ensures CleanFor(ToPlain(p), Finished(c).plain[p]) {
      assert CleanFor(ToPlain(p), c.plain[p]);
    }
  }

  // ----- reading what was written -----------------------------------------------------------

  lemma {:induction false} MarkOfPair(key: string, rest: string)
    requires '=' !in key
    ensures Mark(key + "=" + rest) == |key|
  {
    var line := key + "=" + rest;
    if |key| > 0 {
      MarkOfPair(key[1..], rest);
      assert line[1..] == key[1..] + "=" + rest;
    }
  }

  lemma PairLineReads(r: Reader, p: Pair)
    requires Shaped(r.config) && Clean(p)
    ensures ReadLine(r, p.key + "=" + p.value) == ReadPair(r, p.key, p.value)
  {
    hide Shaped, ReadPair, ReadHeader, Strip, IsSpace;
    var line := p.key + "=" + p.value;
    EqualsIsNoSpace();
    assert Stripped(line) by {
      assert line[0] == if |p.key| > 0 then p.key[0] else '=';
      assert line[|line| - 1] == if |p.value| > 0 then p.value[|p.value| - 1] else '=';
    }
    StripIsStripped(line);
    MarkOfPair(p.key, p.value);
    assert line[..|p.key|] == p.key && line[|p.key| + 1..] == p.value;
    StripIsStripped(p.key);
    StripIsStripped(p.value);
  }

  lemma EqualsIsNoSpace()
    ensures !IsSpace('=') && !IsSpace('[') && !IsSpace(']')
  {
  }

  lemma HeaderLineReads(r: Reader, name: string)
    requires Shaped(r.config) && |name| > 0
    ensures ReadLine(r, "[" + name + "]") == ReadHeader(r, name)
  {
    hide Shaped, ReadPair, ReadHeader, Strip, IsSpace;
    var line := "[" + name + "]";
    EqualsIsNoSpace();
    StripIsStripped(line);
    assert line[1..|line| - 1] == name;
  }

  lemma BlankLineReads(r: Reader)
    requires Shaped(r.config)
    ensures ReadLine(r, "") == r
  {
  }

  lemma ReadLinesSnoc(r: Reader, lines: seq<string>, line: string)
    requires Shaped(r.config)
    ensures ReadLines(r, lines + [line]) == ReadLine(ReadLines(r, lines), line)
  {
    hide Shaped, ReadLine;
    assert (lines + [line])[..|lines|] == lines;
  }

  lemma {:induction false} ReadLinesConcat(r: Reader, a: seq<string>, b: seq<string>)
    requires Shaped(r.config)
    ensures ReadLines(r, a + b) == ReadLines(ReadLines(r, a), b)
    decreases |b|
  {
    hide Shaped, ReadLine;
    if |b| == 0 {
      assert a + b == a;
    } else {
      ReadLinesConcat(r, a, b[..|b| - 1]);
      ReadLinesSnoc(r, a + b[..|b| - 1], b[|b| - 1]);
      assert a + b == (a + b[..|b| - 1]) + [b[|b| - 1]];
    }
  }

  lemma WithTwice(c: Config, t: Target, a: Section, b: Section)
    requires Shaped(c)
    ensures With(With(c, t, a), t, b) == With(c, t, b)
    ensures t != Nowhere ==> Get(With(c, t, a), t) == a
  {
  }

  lemma NewHeader(r: Reader, name: string)
    requires Shaped(r.config) && TargetOf(name) != Nowhere && Get(r.config, TargetOf(name)) == []
    ensures ReadHeader(r, name) == Reader(With(r.config, TargetOf(name), []), InSection(name))
  {
    hide TargetOf;
    var t := TargetOf(name);
    if t.ToPlain? {
      assert r.config.plain[t.p := []] == r.config.plain;
    }
  }

  lemma {:induction false} PairsRead(r: Reader, name: string, c: Config, s: Section)
    requires Shaped(c) && TargetOf(name) != Nowhere && CleanFor(TargetOf(name), s)
    requires r == Reader(With(c, TargetOf(name), []), InSection(name))
    ensures ReadLines(r, PairLines(s)) == Reader(With(c, TargetOf(name), s), InSection(name))
    decreases |s|
  {
    hide TargetOf, Get, With, Clean, ReadLine, Shaped, StoredKey;
    if |s| > 0 {
      var t, k := TargetOf(name), |s| - 1;
      var u := Reader(With(c, t, s[..k]), InSection(name));
      PairsRead(r, name, c, s[..k]);
      assert s[k] in s;
      PairLineReads(u, s[k]);
      ReadLinesSnoc(r, PairLines(s[..k]), s[k].key + "=" + s[k].value);
      WithTwice(c, t, s[..k], s);
      PutNewKey(s[..k], s[k].key, s[k].value);
      assert s == s[..k] + [Pair(s[k].key, s[k].value)];
    }
  }

  /** A block whose section was empty before brings exactly its section back. */
  lemma BlockReads(r: Reader, name: string, s: Section)
    requires Shaped(r.config) && TargetOf(name) != Nowhere && |name| > 0
    requires CleanFor(TargetOf(name), s) && Get(r.config, TargetOf(name)) == []
    ensures ReadLines(r, Block(name, s)) == Reader(With(r.config, TargetOf(name), s), InSection(name))
  {
    hide TargetOf, Get, With, CleanFor, ReadHeader, Shaped, ReadLine;
    HeaderLineReads(r, name);
    NewHeader(r, name);
    ReadLinesConcat(r, ["[" + name + "]"], PairLines(s));
    OneLine(r, "[" + name + "]");
    PairsRead(ReadHeader(r, name), name, r.config, s);
  }

  lemma OneLine(r: Reader, line: string)
    requires Shaped(r.config)
    ensures ReadLines(r, [line]) == ReadLine(r, line)
  {
    hide ReadLine, Shaped;
    assert [line][..0] == [];
  }

  lemma BlankAround(r: Reader, lines: seq<string>)
    requires Shaped(r.config)
    ensures ReadLines(r, lines + [""]) == ReadLines(r, lines)
    ensures ReadLines(r, [""] + lines) == ReadLines(r, lines)
  {
    hide ReadLine, ReadLines, Shaped;
    ReadLinesSnoc(r, lines, "");
    BlankLineReads(ReadLines(r, lines));
    ReadLinesConcat(r, [""], lines);
    OneLine(r, "");
    BlankLineReads(r);
  }

  lemma PlainBlockReads(r: Reader, p: Plain, s: Section)
    requires Shaped(r.config) && CleanFor(ToPlain(p), s) && r.config.plain[p] == []
    ensures ReadLines(r, Block(PlainName(p), s)).config == r.config.(plain := r.config.plain[p := s])
    ensures ReadLines(r, Before(PlainName(p), s)).config == r.config.(plain := r.config.plain[p := s])
    ensures ReadLines(r, Block(PlainName(p), s) + [""]).config == r.config.(plain := r.config.plain[p := s])
  {
    PlainNamesAreTheirOwn(p);
    hide TargetOf, CleanFor, ReadLines, Shaped, Block;
    BlockReads(r, PlainName(p), s);
    BlankAround(r, Block(PlainName(p), s));
  }

  lemma ItemForms(c: Config, item: Item)
    requires Shaped(c)
    ensures var name, s, lines := PlainName(item.p), c.plain[item.p], ItemLines(c, item);
            || lines == Block(name, s) || lines == Block(name, s) + [""] || lines == Before(name, s)
            || (lines == [] && s == [])
  {
    hide Block, Before, PlainName;
  }

  lemma ItemReads(r: Reader, c: Config, item: Item)
    requires Shaped(r.config) && Shaped(c) && CleanFor(ToPlain(item.p), c.plain[item.p]) && r.config.plain[item.p] == []
    ensures ReadLines(r, ItemLines(c, item)).config == r.config.(plain := r.config.plain[item.p := c.plain[item.p]])
  {
    NothingRead(r);
    hide ReadLines, Block, Before, CleanFor, PlainName, Shaped, ItemLines;
    ItemForms(c, item);
    if ItemLines(c, item) == [] {
      assert r.config.plain[item.p := []] == r.config.plain;
    } else {
      PlainBlockReads(r, item.p, c.plain[item.p]);
    }
  }

  function SubTrunks(c: Config, names: seq<string>): map<string, Section>
    requires forall k :: 0 <= k < |names| ==> names[k] in c.trunks
  {
    map name | name in names :: c.trunks[name]
  }

  function SubTgs(c: Config, tgs: seq<nat>): map<nat, Section>
    requires forall k :: 0 <= k < |tgs| ==> tgs[k] in c.tgRules
  {
    map n | n in tgs :: c.tgRules[n]
  }

  predicate NoRepeats<T(==)>(s: seq<T>) {
    forall i, j :: 0 <= i < j < |s| ==> s[i] != s[j]
  }

  lemma TrunkBlockReads(r: Reader, name: string, s: Section)
    requires Shaped(r.config) && IsTrunk(name) && CleanFor(ToTrunk(name), s) && name !in r.config.trunks
    ensures ReadLines(r, Before(name, s)).config == r.config.(trunks := r.config.trunks[name := s])
  {
    TrunkNamesAreTheirOwn(name);
    hide TargetOf, CleanFor, ReadLines, Shaped, Block;
    BlockReads(r, name, s);
    BlankAround(r, Block(name, s));
  }

  lemma TgBlockReads(r: Reader, n: nat, s: Section)
    requires Shaped(r.config) && CleanFor(ToTg(n), s) && n !in r.config.tgRules
    ensures ReadLines(r, Before(TgName(n), s)).config == r.config.(tgRules := r.config.tgRules[n := s])
  {
    TgNamesAreTheirOwn(n);
    hide TargetOf, CleanFor, ReadLines, Shaped, Block;
    BlockReads(r, TgName(n), s);
    BlankAround(r, Block(TgName(n), s));
  }

  lemma {:induction false} TrunksRead(r: Reader, c: Config, names: seq<string>)
    requires Shaped(r.config) && CleanConfig(c) && NoRepeats(names) && r.config.trunks == map[]
    requires forall k :: 0 <= k < |names| ==> names[k] in c.trunks
    ensures ReadLines(r, TrunkLines(c, names)).config == r.config.(trunks := SubTrunks(c, names))
    decreases |names|
  {
    hide Shaped, CleanFor, IsTrunk, Before, ReadLines;
    if |names| == 0 {
      NothingRead(r);
    } else {
      var k := |names| - 1;
      var name, head := names[k], TrunkLines(c, names[..k]);
      TrunksRead(r, c, names[..k]);
      hide TrunkLines;
      assert name !in names[..k];
      TrunkBlockReads(ReadLines(r, head), name, c.trunks[name]);
      ReadLinesConcat(r, head, Before(name, c.trunks[name]));
      assert TrunkLines(c, names) == head + Before(name, c.trunks[name]) by { TrunkLinesSnoc(c, names); }
      assert SubTrunks(c, names) == SubTrunks(c, names[..k])[name := c.trunks[name]];
    }
  }

  lemma NothingRead(r: Reader)
    requires Shaped(r.config)
    ensures ReadLines(r, []) == r
  {
  }

  lemma TrunkLinesSnoc(c: Config, names: seq<string>)
    requires |names| > 0 && forall k :: 0 <= k < |names| ==> names[k] in c.trunks
    ensures var name := names[|names| - 1];
            TrunkLines(c, names) == TrunkLines(c, names[..|names| - 1]) + Before(name, c.trunks[name])
  {
  }

  lemma TgLinesSnoc(c: Config, tgs: seq<nat>)
    requires |tgs| > 0 && forall k :: 0 <= k < |tgs| ==> tgs[k] in c.tgRules
    ensures var n := tgs[|tgs| - 1];
            TgLines(c, tgs) == TgLines(c, tgs[..|tgs| - 1]) + Before(TgName(n), c.tgRules[n])
  {
  }

  lemma {:induction false} TgsRead(r: Reader, c: Config, tgs: seq<nat>)
    requires Shaped(r.config) && CleanConfig(c) && NoRepeats(tgs) && r.config.tgRules == map[]
    requires forall k :: 0 <= k < |tgs| ==> tgs[k] in c.tgRules
    ensures ReadLines(r, TgLines(c, tgs)).config == r.config.(tgRules := SubTgs(c, tgs))
    decreases |tgs|
  {
    hide Shaped, CleanFor, Before, ReadLines, TgName;
    if |tgs| == 0 {
      NothingRead(r);
    } else {
      var k := |tgs| - 1;
      var n, head := tgs[k], TgLines(c, tgs[..k]);
      TgsRead(r, c, tgs[..k]);
      hide TgLines;
      assert n !in tgs[..k];
      TgBlockReads(ReadLines(r, head), n, c.tgRules[n]);
      ReadLinesConcat(r, head, Before(TgName(n), c.tgRules[n]));
      assert TgLines(c, tgs) == head + Before(TgName(n), c.tgRules[n]) by { TgLinesSnoc(c, tgs); }
      assert SubTgs(c, tgs) == SubTgs(c, tgs[..k])[n := c.tgRules[n]];
    }
  }

  function PlainsOf(items: seq<Item>): set<Plain> { set i | i in items :: i.p }

  /** What is left of c when only some of its flat sections are kept. */
  function Only(c: Config, ps: set<Plain>): (plain: map<Plain, Section>)
    requires Shaped(c)
  {
    EmptyIsShaped();
    map p | p in EMPTY.plain :: if p in ps then c.plain[p] else []
  }

  /** The sections of items are different ones, and none of ps. */
  predicate Fresh(items: seq<Item>, ps: set<Plain>) {
    && (forall i :: 0 <= i < |items| ==> items[i].p !in ps)
    && (forall i, j :: 0 <= i < j < |items| ==> items[i].p != items[j].p)
  }

  lemma FreshInit(items: seq<Item>, ps: set<Plain>)
    requires |items| > 0 && Fresh(items, ps)
    ensures Fresh(items[..|items| - 1], ps)
  {
  }

  lemma NoPlains(ps: set<Plain>)
    ensures ps + PlainsOf([]) == ps
  {
  }

  lemma PlainIsClean(c: Config, p: Plain)
    requires CleanConfig(c)
    ensures Shaped(c) && p in c.plain && CleanFor(ToPlain(p), c.plain[p])
  {
    hide CleanFor;
  }

  lemma {:induction false} FlatReads(r: Reader, c: Config, ps: set<Plain>, items: seq<Item>)
    requires CleanConfig(c) && Shaped(r.config) && r.config.plain == Only(c, ps)
    requires Fresh(items, ps)
    ensures ReadLines(r, Flat(c, items)).config == r.config.(plain := Only(c, ps + PlainsOf(items)))
    decreases |items|
  {
    hide CleanConfig, Shaped, CleanFor, ItemLines, ReadLines, Only, PlainsOf, Fresh;
    CleanIsShaped(c);
    if |items| == 0 {
      NothingRead(r);
      NoPlains(ps);
    } else {
      var k := |items| - 1;
      var item, head := items[k], Flat(c, items[..k]);
      FreshInit(items, ps);
      PlainIsClean(c, item.p);
      FlatReads(r, c, ps, items[..k]);
      OnlyOneMore(c, ps, items);
      ItemReads(ReadLines(r, head), c, item);
      ReadLinesConcat(r, head, ItemLines(c, item));
    }
  }

  lemma OnlyOneMore(c: Config, ps: set<Plain>, items: seq<Item>)
    requires Shaped(c) && |items| > 0
    requires Fresh(items, ps)
    ensures var k := |items| - 1;
            var before := Only(c, ps + PlainsOf(items[..k]));
            && items[k].p in before && before[items[k].p] == []
            && Only(c, ps + PlainsOf(items)) == before[items[k].p := c.plain[items[k].p]]
  {
    EmptyIsShaped();
    var k := |items| - 1;
    assert items == items[..k] + [items[k]];
    assert PlainsOf(items) == PlainsOf(items[..k]) + {items[k].p} by {
      forall p | p in PlainsOf(items) ensures p in PlainsOf(items[..k]) + {items[k].p} {
        var i :| i in items && i.p == p;
        assert i in items[..k] || i == items[k];
      }
      forall p | p in PlainsOf(items[..k]) ensures p in PlainsOf(items) {
        var i :| i in items[..k] && i.p == p;
        assert i in items;
      }
      assert items[k] in items;
    }
  }

  /** names lists the keys, each once. */
  predicate Lists<T(==)>(s: seq<T>, keys: set<T>) {
    NoRepeats(s) && (forall x :: x in s ==> x in keys) && (forall x :: x in keys ==> x in s)
  }

  predicate Listed(c: Config, names: seq<string>, tgs: seq<nat>) {
    Lists(names, c.trunks.Keys) && Lists(tgs, c.tgRules.Keys)
  }

  /** Trunks by name, talkgroups by number. */
  predicate InOrder(names: seq<string>, tgs: seq<nat>) {
    && (forall i :: 0 <= i < |names| - 1 ==> Less(names[i], names[i + 1]))
    && (forall i :: 0 <= i < |tgs| - 1 ==> tgs[i] < tgs[i + 1])
  }

  /** text is what save writes for c. */
  ghost predicate SavedAs(c: Config, text: string)
    requires Shaped(c)
  {
    exists names, tgs :: Listed(c, names, tgs) && InOrder(names, tgs) && text == SavedText(c, names, tgs)
  }

  function SavedText(c: Config, names: seq<string>, tgs: seq<nat>): string
    requires Shaped(c) && Listed(c, names, tgs)
  {
    Join(SavedLines(c, names, tgs))
  }

  lemma FirstHalfReads(r: Reader, c: Config, names: seq<string>, tgs: seq<nat>)
    requires CleanConfig(c) && Listed(c, names, tgs) && r.config == EMPTY
    ensures Shaped(EMPTY) && Shaped(c)
    ensures ReadLines(r, Flat(c, FRONT) + TrunkLines(c, names)).config
            == Config(Only(c, PlainsOf(FRONT)), c.trunks, map[])
  {
    hide CleanConfig, Shaped, Listed;
    CleanIsShaped(c);
    EmptyIsShaped();
    assert EMPTY.trunks == map[] && EMPTY.tgRules == map[];
    hide EMPTY, ALL, ReadLines, Flat, FRONT, BACK, Only, PlainsOf, TrunkLines, SubTrunks, Fresh;
    AllPlains();
    WholeAgain(c, names, tgs);
    ListedNames(c, names, tgs);
    assert {} + PlainsOf(FRONT) == PlainsOf(FRONT);
    FlatReads(r, c, {}, FRONT);
    TrunksRead(ReadLines(r, Flat(c, FRONT)), c, names);
    ReadLinesConcat(r, Flat(c, FRONT), TrunkLines(c, names));
  }

  lemma ListedNames(c: Config, names: seq<string>, tgs: seq<nat>)
    requires Listed(c, names, tgs)
    ensures NoRepeats(names) && forall k :: 0 <= k < |names| ==> names[k] in c.trunks
    ensures NoRepeats(tgs) && forall k :: 0 <= k < |tgs| ==> tgs[k] in c.tgRules
  {
  }

  lemma SecondHalfReads(r: Reader, c: Config, names: seq<string>, tgs: seq<nat>)
    requires CleanConfig(c) && Listed(c, names, tgs)
    requires Shaped(c) && Shaped(r.config) && r.config == Config(Only(c, PlainsOf(FRONT)), c.trunks, map[])
    ensures ReadLines(r, Flat(c, BACK) + TgLines(c, tgs)).config == c
  {
    hide EMPTY, CleanConfig, ReadLines, Flat, FRONT, BACK, Only, PlainsOf, TgLines, SubTgs, Fresh, Listed, Shaped;
    EmptyIsShaped();
    AllPlains();
    WholeAgain(c, names, tgs);
    ListedNames(c, names, tgs);
    FlatReads(r, c, PlainsOf(FRONT), BACK);
    TgsRead(ReadLines(r, Flat(c, BACK)), c, tgs);
    ReadLinesConcat(r, Flat(c, BACK), TgLines(c, tgs));
  }

  lemma SavedLinesRead(r: Reader, c: Config, names: seq<string>, tgs: seq<nat>)
    requires CleanConfig(c) && Listed(c, names, tgs) && r.config == EMPTY
    ensures Shaped(EMPTY) && ReadLines(r, SavedLines(c, names, tgs)).config == c
  {
    hide EMPTY, ALL, CleanConfig, ReadLines, Shaped, Flat, Only, TgLines, TrunkLines, FRONT, BACK, Listed;
    CleanIsShaped(c);
    EmptyIsShaped();
    ListedNames(c, names, tgs);
    FirstHalfReads(r, c, names, tgs);
    var first, second := Flat(c, FRONT) + TrunkLines(c, names), Flat(c, BACK) + TgLines(c, tgs);
    assert SavedLines(c, names, tgs) == (first + second) + [""];
    hide SavedLines;
    SecondHalfReads(ReadLines(r, first), c, names, tgs);
    ReadLinesConcat(r, first, second);
    BlankAround(r, first + second);
  }

  lemma WholeAgain(c: Config, names: seq<string>, tgs: seq<nat>)
    requires Shaped(c) && Listed(c, names, tgs)
    ensures SubTrunks(c, names) == c.trunks && SubTgs(c, tgs) == c.tgRules
    ensures Only(c, {}) == EMPTY.plain && Only(c, PlainsOf(FRONT) + PlainsOf(BACK)) == c.plain
  {
    EmptyIsShaped();
    AllPlains();
    hide FRONT, BACK, PlainsOf;
  }

  lemma AllPlains()
    ensures forall p: Plain :: p in PlainsOf(FRONT) || p in PlainsOf(BACK)
    ensures Fresh(FRONT, {}) && Fresh(BACK, PlainsOf(FRONT))
  {
    forall p: Plain ensures p in PlainsOf(FRONT) || p in PlainsOf(BACK) {
      Covered(p);
    }
    FreshFront();
    FreshBack();
    hide FRONT, BACK, PlainsOf, Fresh;
  }

  lemma Covered(p: Plain)
    ensures p in PlainsOf(FRONT) || p in PlainsOf(BACK)
  {
    match p
    case Global => assert FRONT[0] in FRONT;
    case RootCa => assert FRONT[1] in FRONT;
    case IssuingCa => assert FRONT[2] in FRONT;
    case ServerCert => assert FRONT[3] in FRONT;
    case Users => assert FRONT[4] in FRONT;
    case Passwords => assert FRONT[5] in FRONT;
    case Satellite => assert BACK[0] in BACK;
    case Twin => assert BACK[1] in BACK;
    case Redis => assert BACK[2] in BACK;
    case Mqtt => assert BACK[3] in BACK;
  }

  lemma FreshFront()
    ensures Fresh(FRONT, {})
  {
  }

  lemma FreshBack()
    ensures Fresh(BACK, PlainsOf(FRONT))
  {
  }

  lemma NameHasNoBreak(name: string)
    requires IsTrunk(name)
    ensures '\n' !in name
  {
  }

  lemma TgNameHasNoBreak(n: nat)
    ensures '\n' !in TgName(n)
  {
    assert forall c :: c in Decimal(n) ==> IsDigit(c);
  }

  predicate NoBreaks(lines: seq<string>) {
    forall k :: 0 <= k < |lines| ==> '\n' !in lines[k]
  }

  lemma {:induction false} PairLinesBreakless(s: Section)
    requires forall p :: p in s ==> Clean(p)
    ensures NoBreaks(PairLines(s))
  {
    if |s| > 0 {
      var k := |s| - 1;
      assert s[k] in s;
      PairLinesBreakless(s[..k]);
    }
  }

  lemma BlockBreakless(t: Target, name: string, s: Section)
    requires CleanFor(t, s) && '\n' !in name
    ensures NoBreaks(Block(name, s)) && NoBreaks(Block(name, s) + [""]) && NoBreaks(Before(name, s))
  {
    hide Clean, PairLines;
    PairLinesBreakless(s);
  }

  lemma PlainNameHasNoBreak(p: Plain)
    ensures '\n' !in PlainName(p)
  {
  }

  lemma {:induction false} FlatBreakless(c: Config, items: seq<Item>)
    requires CleanConfig(c)
    ensures Shaped(c) && NoBreaks(Flat(c, items))
  {
    if |items| > 0 {
      var k := |items| - 1;
      FlatBreakless(c, items[..k]);
      assert CleanFor(ToPlain(items[k].p), c.plain[items[k].p]);
      hide CleanConfig, CleanFor, PlainName, Block, Before;
      ItemForms(c, items[k]);
      PlainNameHasNoBreak(items[k].p);
      BlockBreakless(ToPlain(items[k].p), PlainName(items[k].p), c.plain[items[k].p]);
    }
  }

  lemma {:induction false} TrunksBreakless(c: Config, names: seq<string>)
    requires CleanConfig(c) && forall k :: 0 <= k < |names| ==> names[k] in c.trunks
    ensures NoBreaks(TrunkLines(c, names))
  {
    hide CleanFor, IsTrunk, Before;
    if |names| > 0 {
      var k := |names| - 1;
      TrunksBreakless(c, names[..k]);
      NameHasNoBreak(names[k]);
      BlockBreakless(ToTrunk(names[k]), names[k], c.trunks[names[k]]);
    }
  }

  lemma {:induction false} TgsBreakless(c: Config, tgs: seq<nat>)
    requires CleanConfig(c) && forall k :: 0 <= k < |tgs| ==> tgs[k] in c.tgRules
    ensures NoBreaks(TgLines(c, tgs))
  {
    hide CleanFor, Before, TgName;
    if |tgs| > 0 {
      var k := |tgs| - 1;
      TgsBreakless(c, tgs[..k]);
      TgNameHasNoBreak(tgs[k]);
      BlockBreakless(ToTg(tgs[k]), TgName(tgs[k]), c.tgRules[tgs[k]]);
    }
  }

  lemma SavedLinesBreakless(c: Config, names: seq<string>, tgs: seq<nat>)
    requires CleanConfig(c) && Listed(c, names, tgs)
    ensures Shaped(c) && NoBreaks(SavedLines(c, names, tgs))
  {
    hide CleanConfig, Flat, TrunkLines, TgLines, FRONT, BACK;
    FlatBreakless(c, FRONT);
    FlatBreakless(c, BACK);
    TrunksBreakless(c, names);
    TgsBreakless(c, tgs);
  }

  lemma FinishedStays(c: Config)
    requires Shaped(c) && Sorted(c.plain[Users]) && Sorted(c.plain[Passwords])
    ensures Finished(c) == c
  {
    SortedStays(c.plain[Users]);
    SortedStays(c.plain[Passwords]);
    hide Sort, Sorted;
    assert c.plain[Users := c.plain[Users]][Passwords := c.plain[Passwords]] == c.plain;
  }

  lemma WellFormedComesBack(c: Config, names: seq<string>, tgs: seq<nat>)
    requires WellFormed(c) && Listed(c, names, tgs)
    ensures Shaped(c) && Loaded(SavedText(c, names, tgs)) == c
  {
    hide EMPTY, CleanConfig, Shaped, Listed, SavedLines, ReadLines, Split, Join, Sorted, Finished;
    CleanIsShaped(c);
    EmptyIsShaped();
    ListedNames(c, names, tgs);
    SavedLinesBreakless(c, names, tgs);
    SavedLinesRead(Reader(EMPTY, NoSection), c, names, tgs);
    SavedLinesSome(c, names, tgs);
    SplitJoin(SavedLines(c, names, tgs));
    FinishedStays(c);
  }

  lemma SavedLinesSome(c: Config, names: seq<string>, tgs: seq<nat>)
    requires Shaped(c) && Listed(c, names, tgs)
    ensures |SavedLines(c, names, tgs)| > 0
  {
  }

  lemma ComesBackIffWellFormed(c: Config, names: seq<string>, tgs: seq<nat>)
    requires Shaped(c) && Listed(c, names, tgs)
    ensures Loaded(SavedText(c, names, tgs)) == c <==> WellFormed(c)
  {
    hide WellFormed, Loaded, SavedText, Listed, Shaped;
    LoadedIsWellFormed(SavedText(c, names, tgs));
    if WellFormed(c) {
      WellFormedComesBack(c, names, tgs);
    }
  }

  /** A configuration comes back from the file that save writes, if and only if it is well formed: then, and only then,
      no value breaks a line or loses blanks, no key is hidden as a comment, a section or behind its first equals sign,
      trunks are named as trunks, the legacy MQTT key is gone, and users and passwords are sorted. */
  lemma SavedComesBack(c: Config, text: string)
    requires Shaped(c) && SavedAs(c, text)
    ensures Loaded(text) == c <==> WellFormed(c)
  {
    hide WellFormed, Loaded, SavedText, Listed, Shaped, InOrder;
    var names, tgs :| Listed(c, names, tgs) && InOrder(names, tgs) && text == SavedText(c, names, tgs);
    ComesBackIffWellFormed(c, names, tgs);
  }

  /** A missing file reads like an empty one, so the first save of a new installation comes back too. */
  lemma MissingIsEmpty(saved: string)
    requires SavedAs(LoadedFrom(Missing), saved)
    ensures LoadedFrom(Missing) == Loaded("") && Loaded(saved) == LoadedFrom(Missing)
  {
    hide CleanConfig, SavedAs, Shaped;
    EmptyTextIsEmpty();
    hide Loaded;
    LoadSaveLoad("", saved);
  }

  lemma EmptyTextIsEmpty()
    ensures Loaded("") == EMPTY
  {
    EmptyIsShaped();
    assert Strip("") == "";
    hide Shaped, ReadHeader, ReadPair;
    var r := Reader(EMPTY, NoSection);
    assert ReadLines(r, [""]) == r;
    assert Split("") == [""];
    NothingToSort();
    assert EMPTY.plain[Users := []][Passwords := []] == EMPTY.plain;
  }

  lemma NothingToSort()
    ensures Sort([]) == []
  {
  }

  /** Loading any text, saving and loading again gives the first configuration. */
  lemma LoadSaveLoad(text: string, saved: string)
    requires SavedAs(Loaded(text), saved)
    ensures Loaded(saved) == Loaded(text)
  {
    hide Loaded, CleanConfig, SavedAs, Shaped;
    LoadedIsWellFormed(text);
    SavedComesBack(Loaded(text), saved);
  }

  // ----- the code ---------------------------------------------------------------------------

  class ReflectorConfig {
    var plain: map<Plain, Section>
    var trunks: map<string, Section>
    var tgRules: map<nat, Section>

    ghost function Value(): Config
      reads this
    {
      Config(plain, trunks, tgRules)
    }

    constructor ()
      ensures Value() == EMPTY && Shaped(Value())
    {
      plain, trunks, tgRules := map p | p in ALL :: [], map[], map[];
      new;
      EmptyIsShaped();
    }

    /** One pair under the current section. */
    method Store(name: string, key: string, value: string)
      requires Shaped(Value())
      modifies this
      ensures Reader(Value(), InSection(name)) == ReadPair(Reader(old(Value()), InSection(name)), key, value)
    {
      hide Put;
      match TargetOf(name)
      case ToPlain(p) =>
        var stored := if p == Mqtt && key == "NAME" then "MQTT_NAME" else key;
        plain := plain[p := Put(plain[p], stored, value)];
      case ToTg(n) =>
        if n !in tgRules {
          tgRules := tgRules[n := []];
        }
        tgRules := tgRules[n := Put(tgRules[n], key, value)];
      case ToTrunk(t) =>
        if t !in trunks {
          trunks := trunks[t := []];
        }
        trunks := trunks[t := Put(trunks[t], key, value)];
      case Nowhere =>
    }

    /** A header: talkgroups and trunks get their entry at once. */
    method Enter(name: string)
      requires Shaped(Value())
      modifies this
      ensures Reader(Value(), InSection(name)) == ReadHeader(Reader(old(Value()), NoSection), name)
    {
      match TargetOf(name)
      case ToTg(n) =>
        if n !in tgRules {
          tgRules := tgRules[n := []];
        }
      case ToTrunk(t) =>
        if t !in trunks {
          trunks := trunks[t := []];
        }
      case _ =>
    }

    /** The loop body of load. */
    method Read(current: Current, raw: string) returns (next: Current)
      requires Shaped(Value())
      modifies this
      ensures Reader(Value(), next) == ReadLine(Reader(old(Value()), current), raw)
    {
      hide Shaped, Strip, Mark, ReadPair, ReadHeader;
      var line := Strip(raw);
      if |line| == 0 || line[0] == '#' {
        return current;
      }
      if IsHeader(line) {
        var name := line[1..|line| - 1];
        Enter(name);
        HeaderForgetsSection(Reader(old(Value()), current), name);
        return InSection(name);
      }
      var mark := Mark(line);
      if mark == |line| {
        return current;
      }
      next := current;
      if current.InSection? {
        Store(current.name, Strip(line[..mark]), Strip(line[mark + 1..]));
      } else {
        NoSectionNoPair(Reader(Value(), current), Strip(line[..mark]), Strip(line[mark + 1..]));
      }
    }

    /** The text that save writes to the file. */
    method Save() returns (text: string)
      requires Shaped(Value())
      ensures SavedAs(Value(), text)
    {
      hide Shaped, TrunkLines, TgLines, Flat, Less;
      ghost var c := Value();
      var trunkNames := SortNames(trunks.Keys);
      var tgNums := SortNumbers(tgRules.Keys);
      var front := FlatSections(FRONT);
      var trunkPart := TrunkSections(trunkNames);
      var back := FlatSections(BACK);
      var tgPart := TgSections(tgNums);
      text := JoinLines(front + trunkPart + back + tgPart + [""]);
      assert text == SavedText(c, trunkNames, tgNums) && InOrder(trunkNames, tgNums);
    }

    method TrunkSections(names: seq<string>) returns (lines: seq<string>)
      requires forall k :: 0 <= k < |names| ==> names[k] in trunks
      ensures lines == TrunkLines(Value(), names)
    {
      hide Block, Before;
      ghost var c := Value();
      lines := [];
      for i := 0 to |names|
        invariant lines == TrunkLines(c, names[..i])
      {
        assert names[..i + 1][..i] == names[..i];
        var block := SectionLines(names[i], trunks[names[i]]);
        BeforeIs(names[i], trunks[names[i]]);
        lines := lines + ([""] + block);
      }
      assert names[..|names|] == names;
    }

    method TgSections(tgs: seq<nat>) returns (lines: seq<string>)
      requires forall k :: 0 <= k < |tgs| ==> tgs[k] in tgRules
      ensures lines == TgLines(Value(), tgs)
    {
      hide Block, Before, TgName;
      ghost var c := Value();
      lines := [];
      for i := 0 to |tgs|
        invariant lines == TgLines(c, tgs[..i])
      {
        assert tgs[..i + 1][..i] == tgs[..i];
        var block := SectionLines(TgName(tgs[i]), tgRules[tgs[i]]);
        BeforeIs(TgName(tgs[i]), tgRules[tgs[i]]);
        lines := lines + ([""] + block);
      }
      assert tgs[..|tgs|] == tgs;
    }

    /** The flat sections of a part of the file. */
    method FlatSections(items: seq<Item>) returns (lines: seq<string>)
      requires Shaped(Value())
      ensures lines == Flat(Value(), items)
    {
      hide Block, PlainName;
      lines := [];
      for i := 0 to |items|
        invariant lines == Flat(Value(), items[..i])
      {
        var item := items[i];
        assert items[..i + 1][..i] == items[..i];
        var section := plain[item.p];
        var block := SectionLines(PlainName(item.p), section);
        if item.style == Always {
          lines := lines + block;
        } else if item.style == GapAfter {
          lines := lines + (block + [""]);
        } else if |section| > 0 {
          lines := lines + if item.style == IfAnyGapAfter then block + [""] else [""] + block;
        }
      }
      assert items[..|items|] == items;
    }
  }

  lemma BeforeIs(name: string, s: Section)
    ensures Before(name, s) == [""] + Block(name, s)
  {
    hide Block;
  }

  lemma HeaderForgetsSection(r: Reader, name: string)
    requires Shaped(r.config)
    ensures ReadHeader(r, name) == ReadHeader(Reader(r.config, NoSection), name)
  {
  }

  lemma NoSectionNoPair(r: Reader, key: string, value: string)
    requires Shaped(r.config) && r.current.NoSection?
    ensures ReadPair(r, key, value) == r
  {
  }

  /** A header and a line for each pair. */
  method SectionLines(name: string, s: Section) returns (lines: seq<string>)
    ensures lines == Block(name, s)
  {
    lines := ["[" + name + "]"];
    for i := 0 to |s|
      invariant lines == ["[" + name + "]"] + PairLines(s[..i])
    {
      assert s[..i + 1][..i] == s[..i];
      lines := lines + [s[i].key + "=" + s[i].value];
    }
    assert s[..|s|] == s;
  }

  method JoinLines(lines: seq<string>) returns (text: string)
    requires |lines| > 0
    ensures text == Join(lines)
  {
    var i := |lines| - 1;
    text := lines[i];
    while i > 0
      invariant 0 <= i < |lines| && text == Join(lines[i..])
    {
      i := i - 1;
      assert lines[i..][1..] == lines[i + 1..];
      text := lines[i] + "\n" + text;
    }
    assert lines[0..] == lines;
  }

  function InsertName(name: string, names: seq<string>): seq<string> {
    if |names| == 0 || Less(name, names[0]) then [name] + names else [names[0]] + InsertName(name, names[1..])
  }

  lemma {:induction false} InsertNameSorts(name: string, names: seq<string>)
    requires forall i :: 0 <= i < |names| - 1 ==> Less(names[i], names[i + 1])
    requires name !in names && NoRepeats(names)
    ensures var r := InsertName(name, names);
            && (forall i :: 0 <= i < |r| - 1 ==> Less(r[i], r[i + 1])) && NoRepeats(r)
            && (forall x :: x in r <==> x == name || x in names)
            && (|names| == 0 || Less(name, names[0]) || r[0] == names[0])
  {
    if |names| > 0 && !Less(name, names[0]) {
      LessTotal(name, names[0]);
      assert name !in names[1..];
      InsertNameSorts(name, names[1..]);
      assert names == [names[0]] + names[1..];
      var r := InsertName(name, names[1..]);
      assert r[0] == name || r[0] == names[1];
      assert forall k :: 0 <= k < |r| ==> r[k] in r;
    }
  }

  method SortNames(keys: set<string>) returns (names: seq<string>)
    ensures Lists(names, keys) && forall i :: 0 <= i < |names| - 1 ==> Less(names[i], names[i + 1])
  {
    hide Less;
    names := [];
    var rest := keys;
    while rest != {}
      invariant rest <= keys && Lists(names, keys - rest)
      invariant forall i :: 0 <= i < |names| - 1 ==> Less(names[i], names[i + 1])
      decreases |rest|
    {
      var name :| name in rest;
      InsertNameSorts(name, names);
      names := InsertName(name, names);
      rest := rest - {name};
    }
  }

  function InsertNumber(n: nat, ns: seq<nat>): seq<nat> {
    if |ns| == 0 || n < ns[0] then [n] + ns else [ns[0]] + InsertNumber(n, ns[1..])
  }

  lemma {:induction false} InsertNumberSorts(n: nat, ns: seq<nat>)
    requires forall i :: 0 <= i < |ns| - 1 ==> ns[i] < ns[i + 1]
    requires n !in ns && NoRepeats(ns)
    ensures var r := InsertNumber(n, ns);
            && (forall i :: 0 <= i < |r| - 1 ==> r[i] < r[i + 1]) && NoRepeats(r)
            && (forall x :: x in r <==> x == n || x in ns)
            && (|ns| == 0 || n < ns[0] || r[0] == ns[0])
  {
    if |ns| > 0 && n >= ns[0] {
      assert n !in ns[1..];
      InsertNumberSorts(n, ns[1..]);
      assert ns == [ns[0]] + ns[1..];
      var r := InsertNumber(n, ns[1..]);
      assert r[0] == n || r[0] == ns[1];
      assert forall k :: 0 <= k < |r| ==> r[k] in r;
    }
  }

  method SortNumbers(keys: set<nat>) returns (ns: seq<nat>)
    ensures Lists(ns, keys) && forall i :: 0 <= i < |ns| - 1 ==> ns[i] < ns[i + 1]
  {
    ns := [];
    var rest := keys;
    while rest != {}
      invariant rest <= keys && Lists(ns, keys - rest)
      invariant forall i :: 0 <= i < |ns| - 1 ==> ns[i] < ns[i + 1]
      decreases |rest|
    {
      var n :| n in rest;
      InsertNumberSorts(n, ns);
      ns := InsertNumber(n, ns);
      rest := rest - {n};
    }
  }

  /** load, but for the part that asks Redis. */
  method Load(file: File) returns (config: ReflectorConfig)
    ensures fresh(config) && config.Value() == LoadedFrom(file)
  {
    hide Split, ReadLine, Sort, Shaped;
    config := new ReflectorConfig();
    if file.Missing? {
      return;
    }
    var text := file.text;
    var current := NoSection;
    var lines := Split(text);
    for i := 0 to |lines|
      invariant fresh(config) && Shaped(config.Value())
      invariant Shaped(EMPTY) && Reader(config.Value(), current) == ReadLines(Reader(EMPTY, NoSection), lines[..i])
    {
      assert lines[..i + 1][..i] == lines[..i];
      current := config.Read(current, lines[i]);
    }
    assert lines[..|lines|] == lines;
    ShapedHas(config.Value());
    config.plain := config.plain[Users := Sort(config.plain[Users])];
    config.plain := config.plain[Passwords := Sort(config.plain[Passwords])];
  }

  lemma ShapedHas(c: Config)
    requires Shaped(c)
    ensures Users in c.plain && Passwords in c.plain
  {
  }
}
