/** Two files whose server list does not survive being loaded (Config.cpp:331-440 on
    src/platform/ini_doc.h:238-335). */
module ConfigExamples {
  import opened Text
  import opened IniDocs
  import opened IniNames
  import opened IniPuts
  import opened ConfigServers
  import opened ConfigRenumbers

  const NO_DEFAULTS: Defaults := Defaults("", "")

  /** A header and one pair under it. */
  function Of(sec: string, key: string, val: string): seq<Line>
  {
    [Line(Section, "[" + sec + "]", sec, "", ""), Pair(sec, key, val)]
  }

  lemma OfIs(sec: string, key: string, val: string, cur: string)
    requires Storable(key, val) && '\n' !in sec
    ensures Consistent(Of(sec, key, val), cur) && Running(Of(sec, key, val), cur) == sec
  {
    HeaderOk(sec, cur);
    PairReadsBackIff(sec, key, val);
    OneLine(Pair(sec, key, val), sec);
    hide LineOk, Storable;
    assert Of(sec, key, val)[1..] == [Pair(sec, key, val)];
  }

  lemma OfReads(sec: string, key: string, val: string, sec': string, key': string, def: string)
    ensures Get(Of(sec, key, val), sec', key', def) == if SamePair(sec, key, sec', key') then val else def
  {
    assert Of(sec, key, val)[1..] == [Pair(sec, key, val)];
    PairHolds(sec, key, val, sec', key', def);
  }

  /** The same behind other lines. */
  lemma More(doc: seq<Line>, sec: string, key: string, val: string)
    requires Consistent(doc, "") && Storable(key, val) && '\n' !in sec && !Named(SectionNames(doc), sec)
    ensures Consistent(doc + Of(sec, key, val), "")
    ensures SectionNames(doc + Of(sec, key, val)) == SectionNames(doc) + [sec]
  {
    hide Consistent, Running, Storable, Named, SectionNames;
    OfIs(sec, key, val, Running(doc, ""));
    ConsistentSplit(doc, Of(sec, key, val), "");
    var head := Line(Section, "[" + sec + "]", sec, "", "");
    NamesOfLast(doc, head);
    NamesOfLast(doc + [head], Pair(sec, key, val));
    assert doc + [head] + [Pair(sec, key, val)] == doc + Of(sec, key, val);
  }

  /** A section that holds nothing but an address. */
  lemma BareEntry(doc: seq<Line>, sec: string, ip: string)
    requires forall key, def :: Get(doc, sec, key, def) == if SameName("ServerIP", key) then ip else def
    ensures ReadEntry(doc, sec, NO_DEFAULTS) == Entry("", StripQuotes(Trim(ip)), DEFAULT_PORT, 0, "", "", "", false)
  {
    assert KEYS[0] == "Name" && KEYS[1] == "ServerIP";
    SameNameRefl(KEYS[1]);
    forall a | 0 <= a < |KEYS| && a != 1
      ensures !SameName("ServerIP", KEYS[a])
    {
      KeysDiffer(1, a);
    }
    OtherKeys();
    IntReads(DEFAULT_PORT, DEFAULT_PORT);
    IntReads(0, 0);
    hide Get, SameName, Number, ToInt;
    assert Trim("") == "" && StripQuotes("") == "" && LowerAscii("") == "";
  }

  lemma OtherKeys()
    ensures KEYS[2] == "ServerPort" && KEYS[3] == "Transport" && KEYS[4] == "ClientID" && KEYS[5] == "RegisterToken"
    ensures KEYS[6] == "ServerPubKey" && KEYS[7] == "Managed" && |KEYS| == 8
  {
  }

  function Bare(ip: string): Entry
  {
    Entry("", ip, DEFAULT_PORT, 0, "", "", "", false)
  }

  lemma PairsDiffer(sec: string, key: string, sec': string, key': string, i: nat)
    requires |sec| != |sec'| || (i < |sec| && LowerChar(sec[i]) != LowerChar(sec'[i]))
    ensures !SamePair(sec, key, sec', key') && !SameName(sec, sec')
  {
  }

  // ---- a header in other letter case -----------------------------------------------------------

  const NINE: seq<Line> := Of("Server", "Count", "9")
  const FIRST: seq<Line> := NINE + Of("server1", "ServerIP", "a")
  const SECOND: seq<Line> := FIRST + Of("Server2", "ServerIP", "b")

  /** Three servers, the first under a header in lower case. */
  const LOWER: seq<Line> := SECOND + Of("Server3", "ServerIP", "c")

  lemma AddressStorable(ip: string)
    requires |ip| == 1 && ip[0] in {'a', 'b', 'c'}
    ensures Storable("ServerIP", ip) && Clean(ip) && StripQuotes(Trim(ip)) == ip
  {
    TrimTight(ip);
  }

  lemma LowerNames()
    ensures Consistent(LOWER, "") && SectionNames(LOWER) == ["Server", "server1", "Server2", "Server3"]
  {
    hide Consistent, SectionNames, Storable, Of;
    AddressStorable("a");
    AddressStorable("b");
    AddressStorable("c");
    assert Storable("Count", "9") by { CountNine(); }
    NothingNamed("Server");
    More([], "Server", "Count", "9");
    assert [] + NINE == NINE;
    PairsDiffer("Server", "", "server1", "", 0);
    More(NINE, "server1", "ServerIP", "a");
    PairsDiffer("Server", "", "Server2", "", 0);
    PairsDiffer("server1", "", "Server2", "", 6);
    More(FIRST, "Server2", "ServerIP", "b");
    PairsDiffer("Server", "", "Server3", "", 0);
    PairsDiffer("server1", "", "Server3", "", 6);
    PairsDiffer("Server2", "", "Server3", "", 6);
    More(SECOND, "Server3", "ServerIP", "c");
  }

  lemma CountNine()
    ensures Storable("Count", "9")
  {
  }

  lemma NothingNamed(sec: string)
    ensures Consistent([], "") && SectionNames([]) == [] && !Named([], sec)
  {
  }

  lemma LowerReads(sec: string, key: string, def: string)
    ensures Get(LOWER, sec, key, def) ==
              if SamePair("Server", "Count", sec, key) then "9"
              else if SamePair("server1", "ServerIP", sec, key) then "a"
              else if SamePair("Server2", "ServerIP", sec, key) then "b"
              else if SamePair("Server3", "ServerIP", sec, key) then "c"
              else def
  {
    hide SamePair, Get, Of;
    var third := Get(Of("Server3", "ServerIP", "c"), sec, key, def);
    var second := Get(Of("Server2", "ServerIP", "b"), sec, key, third);
    OfReads("Server3", "ServerIP", "c", sec, key, def);
    OfReads("Server2", "ServerIP", "b", sec, key, third);
    OfReads("server1", "ServerIP", "a", sec, key, second);
    OfReads("Server", "Count", "9", sec, key, Get(Of("server1", "ServerIP", "a"), sec, key, second));
    GetSplit(SECOND, Of("Server3", "ServerIP", "c"), sec, key, def);
    GetSplit(FIRST, Of("Server2", "ServerIP", "b"), sec, key, third);
    GetSplit(NINE, Of("server1", "ServerIP", "a"), sec, key, second);
  }

  /** The addresses read under the second and third header. */
  lemma LowerEntries()
    ensures ReadEntry(LOWER, "Server2", NO_DEFAULTS) == Bare("b") && ReadEntry(LOWER, "Server3", NO_DEFAULTS) == Bare("c")
    ensures GetInt(LOWER, "Server", "Count", 0) == 9
  {
    hide Get, LOWER;
    PairsDiffer("Server", "Count", "Server2", "", 0);
    PairsDiffer("server1", "ServerIP", "Server2", "", 6);
    PairsDiffer("Server", "Count", "Server3", "", 0);
    PairsDiffer("server1", "ServerIP", "Server3", "", 6);
    PairsDiffer("Server2", "ServerIP", "Server3", "", 6);
    SameNameRefl("Server2");
    SameNameRefl("Server3");
    SameNameRefl("Server");
    SameNameRefl("Count");
    hide SameName;
    forall key, def
      ensures Get(LOWER, "Server2", key, def) == if SameName("ServerIP", key) then "b" else def
    {
      LowerReads("Server2", key, def);
    }
    forall key, def
      ensures Get(LOWER, "Server3", key, def) == if SameName("ServerIP", key) then "c" else def
    {
      LowerReads("Server3", key, def);
    }
    AddressStorable("b");
    AddressStorable("c");
    BareEntry(LOWER, "Server2", "b");
    BareEntry(LOWER, "Server3", "c");
    LowerReads("Server", "Count", Number(0));
    NineReads();
  }

  lemma NineReads()
    ensures ToInt("9", 0) == 9
  {
    IntReads(9, 0);
    assert Number(9) == "9";
  }

  lemma LowerNumbered()
    ensures SectionOf(1) == "Server1" && SectionOf(2) == "Server2" && SectionOf(3) == "Server3"
    ensures Numbered("Server2") && Numbered("Server3") && !Numbered("server1") && !Numbered("Server")
    ensures ToInt("Server2"[6..], 0) == 2 && ToInt("Server3"[6..], 0) == 3
  {
    assert Decimal(1) == "1" && Decimal(2) == "2" && Decimal(3) == "3";
    SectionIsNumbered(2);
    SectionIsNumbered(3);
    assert "server1"[..6][0] == 's';
    hide ToInt;
  }

  lemma LowerFound()
    ensures Found(LOWER, NO_DEFAULTS) == [Server(2, Bare("b")), Server(3, Bare("c"))]
  {
    LowerNames();
    LowerEntries();
    LowerNumbered();
    hide SectionNames, ReadEntry, ToInt, Numbered, LOWER;
    var names := ["Server", "server1", "Server2", "Server3"];
    assert names[..3] == ["Server", "server1", "Server2"] && names[..3][..2] == ["Server", "server1"];
    CollectsNone(LOWER, names[..3][..2], NO_DEFAULTS);
    CollectsOne(LOWER, names[..3][..2], "Server2", 2, Bare("b"), NO_DEFAULTS);
    CollectsOne(LOWER, names[..3], "Server3", 3, Bare("c"), NO_DEFAULTS);
    assert names[..3][..2] + ["Server2"] == names[..3] && names[..3] + ["Server3"] == names;
    AscendingIsSorted([Server(2, Bare("b")), Server(3, Bare("c"))]);
  }

  lemma LowerShadows()
    ensures OnlyFirst(LOWER)
  {
    LowerNames();
    LowerNumbered();
    SameButForCase();
    hide SectionNames, LOWER, SameName, SectionOf;
    ShadowsMember(SectionNames(LOWER), "server1", 1);
    forall k | k > 1
      ensures !Shadowed(LOWER, k)
    {
      NoOtherShadow(k);
    }
  }

  lemma NoOtherShadow(k: nat)
    requires k > 1
    ensures !Shadows(["Server", "server1", "Server2", "Server3"], k)
  {
    var names := ["Server", "server1", "Server2", "Server3"];
    LowerNumbered();
    SameButForCase();
    NotServer(k);
    SectionsDiffer(1, k);
    SameNameThrough("server1", SectionOf(1), SectionOf(k));
    hide SameName, SectionOf, Numbered;
    forall i | 0 <= i < |names| && SameName(names[i], SectionOf(k))
      ensures names[i] == SectionOf(k)
    {
      NumberedIsOwn(names[i], k);
    }
  }

  lemma SameButForCase()
    ensures SameName("server1", "Server1") && "server1" in ["Server", "server1", "Server2", "Server3"]
  {
    assert ["Server", "server1", "Server2", "Server3"][1] == "server1";
  }

  /** Servers a, b, c under [server1], [Server2], [Server3] and a wrong count: the first
      load finds b and c, the second c, the third none. */
  lemma LowerCaseLosesAll()
    ensures LoadServers(LOWER, NO_DEFAULTS).servers == [Bare("b"), Bare("c")]
    ensures LoadServers(AfterLoads(LOWER, NO_DEFAULTS, 1), NO_DEFAULTS).servers == [Bare("c")]
    ensures LoadServers(AfterLoads(LOWER, NO_DEFAULTS, 2), NO_DEFAULTS).servers == []
    ensures !Settles(LOWER, NO_DEFAULTS)
  {
    LowerNames();
    LowerEntries();
    LowerFound();
    LowerShadows();
    hide SectionNames, Found, LOWER, OnlyFirst, LoadServers, GetInt, Consistent, AfterLoads, Bare;
    var es := [Bare("b"), Bare("c")];
    RewrittenIff(LOWER, NO_DEFAULTS);
    EntriesAt(Found(LOWER, NO_DEFAULTS));
    assert Entries(Found(LOWER, NO_DEFAULTS)) == es;
    BareLasts();
    LosesOneEachLoad(LOWER, NO_DEFAULTS, 1);
    LosesOneEachLoad(LOWER, NO_DEFAULTS, 2);
    assert es[1..] == [Bare("c")] && es[2..] == [];
    OneLoad(LOWER, NO_DEFAULTS);
  }

  lemma BareLasts()
    ensures AllLasting([Bare("b"), Bare("c")])
  {
  }

  lemma OneLoad(doc: seq<Line>, d: Defaults)
    ensures AfterLoads(doc, d, 1) == LoadServers(doc, d).doc
  {
    assert AfterLoads(doc, d, 0) == doc;
  }

  // ---- a value in two pairs of quotes ------------------------------------------------------------

  const TWICE: string := "\"\"x\"\""
  const ONCE: string := "\"x\""

  /** One server whose address is quoted twice. */
  const QUOTED: seq<Line> := Of("Server1", "ServerIP", TWICE)

  lemma QuotesStrip()
    ensures Storable("ServerIP", TWICE)
    ensures StripQuotes(Trim(TWICE)) == ONCE && StripQuotes(Trim(ONCE)) == "x" && ONCE != ""
  {
    TrimTight(TWICE);
    TrimTight(ONCE);
  }

  lemma QuotedFound()
    ensures Consistent(QUOTED, "") && SectionNames(QUOTED) == ["Server1"]
    ensures Found(QUOTED, NO_DEFAULTS) == [Server(1, Bare(ONCE))]
    ensures GetInt(QUOTED, "Server", "Count", 0) == 0
  {
    hide Consistent, SectionNames, Storable, Of, Get, ReadEntry, Numbered, ToInt, TWICE, ONCE;
    QuotesStrip();
    NothingNamed("Server1");
    More([], "Server1", "ServerIP", TWICE);
    assert [] + QUOTED == QUOTED;
    QuotedReads();
    SectionIsNumbered(1);
    FirstSection();
    CollectsNone(QUOTED, [], NO_DEFAULTS);
    CollectsOne(QUOTED, [], "Server1", 1, Bare(ONCE), NO_DEFAULTS);
    assert [] + ["Server1"] == ["Server1"];
    AscendingIsSorted([Server(1, Bare(ONCE))]);
  }

  lemma FirstSection()
    ensures SectionOf(1) == "Server1"
  {
    assert Decimal(1) == "1";
  }

  lemma QuotedReads()
    ensures ReadEntry(QUOTED, "Server1", NO_DEFAULTS) == Bare(ONCE)
    ensures GetInt(QUOTED, "Server", "Count", 0) == 0
  {
    SameNameRefl("Server1");
    PairsDiffer("Server1", "ServerIP", "Server", "Count", 0);
    QuotesStrip();
    IntReads(0, 0);
    OfReads("Server1", "ServerIP", TWICE, "Server", "Count", Number(0));
    hide SameName, Get, Of, ToInt, Number, TWICE, ONCE;
    forall key, def
      ensures Get(QUOTED, "Server1", key, def) == if SameName("ServerIP", key) then TWICE else def
    {
      OfReads("Server1", "ServerIP", TWICE, "Server1", key, def);
    }
    BareEntry(QUOTED, "Server1", TWICE);
  }

  /** The first load gives the address with one pair of quotes, the next without. */
  lemma QuotesAreLost()
    ensures LoadServers(QUOTED, NO_DEFAULTS).servers == [Bare("\"x\"")]
    ensures LoadServers(LoadServers(QUOTED, NO_DEFAULTS).doc, NO_DEFAULTS).servers == [Bare("x")]
    ensures !Settles(QUOTED, NO_DEFAULTS)
  {
    var es := [Bare(ONCE)];
    QuotedFound();
    QuotesStrip();
    FirstSection();
    NoShadow();
    hide Consistent, SectionNames, Found, LoadServers, QUOTED, Shadowed;
    RewrittenIff(QUOTED, NO_DEFAULTS);
    FoundAgain(QUOTED, NO_DEFAULTS, NO_DEFAULTS);
    RewrittenIff(LoadServers(QUOTED, NO_DEFAULTS).doc, NO_DEFAULTS);
    OneEntry(Server(1, Bare(ONCE)));
    OneEntry(Server(1, Bare("x")));
    assert Reread(Bare(ONCE)) == Bare("x") by { EmptyReads(); }
    AgainCases(QUOTED, es, 1);
    assert Again(QUOTED, es, 0) == [];
  }

  lemma EmptyReads()
    ensures StripQuotes(Trim("")) == "" && StripQuotes(StripQuotes(Trim(""))) == ""
  {
  }

  lemma NoShadow()
    ensures !Shadowed(QUOTED, 1)
  {
    QuotedFound();
    FirstSection();
  }

  lemma OneEntry(s: Server)
    ensures Entries([s]) == [s.entry]
  {
    assert [s][..0] == [];
  }
}
