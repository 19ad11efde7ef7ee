/** The server list in the configuration file (Config.cpp): collecting the numbered
    sections, and renumbering them when they are out of step. Every call that reads or
    writes one key loads the file and, after a change, saves it. */
module ConfigServers {
  import opened Text
  import opened IniDocs
  import opened IniNames
  import opened IniPuts

  const INT_MAX: int := 0x7FFF_FFFF
  const INT_MIN: int := -0x8000_0000
  const LL_MAX: int := 0x7FFF_FFFF_FFFF_FFFF
  const LL_MIN: int := -0x8000_0000_0000_0000
  const DEFAULT_PORT: int := 51820

  const KEYS: seq<string> := ["Name", "ServerIP", "ServerPort", "Transport", "ClientID", "RegisterToken", "ServerPubKey", "Managed"]

  /** A text of one line, as every value read from a file is. */
  type TextLine = s: string | '\n' !in s

  datatype Entry = Entry(name: string, ip: string, port: int, transport: nat, clientId: string, token: string,
                         pubKey: string, managed: bool)

  /** What the identity section offers to servers that do not name their own. */
  datatype Defaults = Defaults(clientId: TextLine, token: TextLine)

  // ---- values --------------------------------------------------------------------------

  predicate Wrapped(s: string)
  {
    |s| >= 2 && s[0] == '"' && s[|s| - 1] == '"'
  }

  function StripQuotes(s: string): string
  {
    if Wrapped(s) then s[1..|s| - 1] else s
  }

  function LowerAscii(s: string): string
  {
    if s == [] then [] else [LowerChar(s[0])] + LowerAscii(s[1..])
  }

  function SkipTabs(s: string): string
  {
    if s != [] && (s[0] == ' ' || s[0] == '\t') then SkipTabs(s[1..]) else s
  }

  /** The conversion of a long long to int. */
  function Truncated(v: int): int
  {
    (v - INT_MIN) % 0x1_0000_0000 + INT_MIN
  }

  function ToInt(s: string, def: int): int
  {
    var t := SkipTabs(s);
    if t == [] then def
    else
      match ScanInt(t)
      case None => def
      case Some(v) => if LL_MIN <= v <= LL_MAX then Truncated(v) else def
  }

  function GetStr(doc: seq<Line>, sec: string, key: string, def: string): string
  {
    StripQuotes(Trim(Get(doc, sec, key, def)))
  }

  function GetInt(doc: seq<Line>, sec: string, key: string, def: int): int
  {
    ToInt(Get(doc, sec, key, Number(def)), def)
  }

  /** 1 for TCP; anything else, known or not, is UDP. */
  function TransportOf(s: string): nat
  {
    if LowerAscii(s) in {"1", "tcp", "true", "yes"} then 1 else 0
  }

  function ReadEntry(doc: seq<Line>, sec: string, d: Defaults): Entry
  {
    Entry(StripQuotes(GetStr(doc, sec, "Name", "")),
          GetStr(doc, sec, "ServerIP", ""),
          GetInt(doc, sec, "ServerPort", DEFAULT_PORT),
          TransportOf(GetStr(doc, sec, "Transport", "")),
          GetStr(doc, sec, "ClientID", d.clientId),
          GetStr(doc, sec, "RegisterToken", d.token),
          StripQuotes(GetStr(doc, sec, "ServerPubKey", "")),
          GetInt(doc, sec, "Managed", 0) != 0)
  }

  // ---- collecting ------------------------------------------------------------------------

  predicate Numbered(sec: string)
  {
    |sec| > 6 && sec[..6] == "Server" && AllDigits(sec[6..])
  }

  datatype Server = Server(number: int, entry: Entry)

  /** The servers of these sections, in their order. */
  function Collected(doc: seq<Line>, names: seq<string>, d: Defaults): seq<Server>
  {
    if names == [] then []
    else
      var front := Collected(doc, names[..|names| - 1], d);
      var sec := names[|names| - 1];
      if !Numbered(sec) || ToInt(sec[6..], 0) <= 0 || ReadEntry(doc, sec, d).ip == "" then front
      else front + [Server(ToInt(sec[6..], 0), ReadEntry(doc, sec, d))]
  }

  function Placed(sorted: seq<Server>, s: Server): seq<Server>
  {
    if sorted == [] || sorted[|sorted| - 1].number <= s.number then sorted + [s]
    else Placed(sorted[..|sorted| - 1], s) + [sorted[|sorted| - 1]]
  }

  /** In ascending order of their numbers. */
  function Sorted(found: seq<Server>): seq<Server>
  {
    if found == [] then [] else Placed(Sorted(found[..|found| - 1]), found[|found| - 1])
  }

  /** The servers of a file, in ascending order of their numbers. */
  function Found(doc: seq<Line>, d: Defaults): seq<Server>
  {
    Sorted(Collected(doc, SectionNames(doc), d))
  }

  /** Numbered 1, 2, ... and as many as counted, in the program's ints. */
  predicate InStep(found: seq<Server>, count: int)
  {
    Truncated(|found|) == count && forall i :: 0 <= i < |found| ==> found[i].number == Truncated(i + 1)
  }

  function Entries(found: seq<Server>): seq<Entry>
  {
    if found == [] then [] else Entries(found[..|found| - 1]) + [found[|found| - 1].entry]
  }

  // ---- rewriting --------------------------------------------------------------------------

  function Cleared(doc: seq<Line>, names: seq<string>): seq<Line>
  {
    if names == [] then doc
    else
      var front := Cleared(doc, names[..|names| - 1]);
      if Numbered(names[|names| - 1]) then Dropped(front, names[|names| - 1]) else front
  }

  function Texts(e: Entry): (t: seq<string>)
    ensures |t| == |KEYS|
  {
    [e.name, e.ip, Number(e.port), Number(e.transport), e.clientId, e.token, e.pubKey, if e.managed then "1" else "0"]
  }

  function SectionOf(k: nat): string
  {
    "Server" + Decimal(k)
  }

  /** The first n keys of an entry written under a section. */
  function Written(doc: seq<Line>, sec: string, e: Entry, n: nat): seq<Line>
    requires n <= |KEYS|
  {
    if n == 0 then doc else Put(Written(doc, sec, e, n - 1), sec, KEYS[n - 1], Texts(e)[n - 1])
  }

  /** The first n entries written as Server1 to Servern. */
  function Renumbered(doc: seq<Line>, es: seq<Entry>, n: nat): seq<Line>
    requires n <= |es|
  {
    if n == 0 then doc else Written(Renumbered(doc, es, n - 1), SectionOf(n), es[n - 1], |KEYS|)
  }

  /** The file after a rewrite. */
  function Rewrite(doc: seq<Line>, es: seq<Entry>): seq<Line>
  {
    Put(Renumbered(Cleared(doc, SectionNames(doc)), es, |es|), "Server", "Count", Number(Truncated(|es|)))
  }

  datatype Outcome = Outcome(doc: seq<Line>, servers: seq<Entry>, rewritten: bool)

  /** One load: the list, and the file as it is left. */
  function LoadServers(doc: seq<Line>, d: Defaults): Outcome
  {
    var found := Found(doc, d);
    if InStep(found, GetInt(doc, "Server", "Count", 0)) then Outcome(doc, Entries(found), false)
    else Outcome(Rewrite(doc, Entries(found)), Entries(found), true)
  }

  predicate Ascending(found: seq<Server>)
  {
    forall i, j :: 0 <= i < j < |found| ==> found[i].number <= found[j].number
  }

  /** The list is in ascending order of the section numbers and holds exactly the
      servers found. */
  lemma {:induction false} SortedIsPermutation(found: seq<Server>)
    ensures multiset(Sorted(found)) == multiset(found) && Ascending(Sorted(found))
  {
    if found != [] {
      var front, last := found[..|found| - 1], found[|found| - 1];
      SortedIsPermutation(front);
      assert found == front + [last];
      PlacedKeeps(Sorted(front), last);
      hide Placed, Ascending;
    }
  }

  lemma {:induction false} PlacedKeeps(sorted: seq<Server>, s: Server)
    requires Ascending(sorted)
    ensures Ascending(Placed(sorted, s)) && multiset(Placed(sorted, s)) == multiset(sorted) + multiset{s}
  {
    if sorted == [] || sorted[|sorted| - 1].number <= s.number {
      assert Placed(sorted, s) == sorted + [s];
    } else {
      var front, last := sorted[..|sorted| - 1], sorted[|sorted| - 1];
      assert sorted == front + [last];
      PlacedKeeps(front, s);
      var p := Placed(front, s);
      hide Placed;
      forall i | 0 <= i < |p|
        ensures p[i].number <= last.number
      {
        assert p[i] in multiset(p);
        assert p[i] == s || p[i] in multiset(front);
        assert p[i] != s ==> p[i] in front;
      }
    }
  }

  // ---- the program -------------------------------------------------------------------------------

  class ConfigFile {
    var text: string

    /** The document a load of the file yields. */
    ghost function Doc(): seq<Line>
      reads this
    {
      Loaded(text)
    }

    constructor (text: string)
      ensures this.text == text
    {
      this.text := text;
    }

    method IniGetStr(sec: string, key: string, def: string) returns (v: string)
      ensures v == GetStr(Doc(), sec, key, def)
    {
      var ini := new IniDoc();
      ini.Load(text);
      v := ini.GetValue(sec, key, def);
      v := StripQuotes(Trim(v));
    }

    method IniGetInt(sec: string, key: string, def: int) returns (n: int)
      ensures n == GetInt(Doc(), sec, key, def)
    {
      var ini := new IniDoc();
      ini.Load(text);
      var v := ini.GetValue(sec, key, Number(def));
      n := ToInt(v, def);
    }

    method IniSetStr(sec: string, key: string, val: string)
      modifies this
      ensures Doc() == Put(old(Doc()), sec, key, val)
    {
      hide Set, Loaded, Saved, Consistent;
      var ini := new IniDoc();
      ini.Load(text);
      ini.SetValue(sec, key, val);
      text := ini.Save();
    }

    method IniDelSection(sec: string)
      modifies this
      ensures Doc() == Dropped(old(Doc()), sec)
    {
      hide WithoutSection, Loaded, Saved, Consistent;
      var ini := new IniDoc();
      ini.Load(text);
      ini.DelSection(sec);
      text := ini.Save();
    }

    method IniSections() returns (names: seq<string>)
      ensures names == SectionNames(Doc())
    {
      hide SectionNames, Loaded, Consistent;
      var ini := new IniDoc();
      ini.Load(text);
      names := ini.Sections();
    }

    method ReadServer(sec: string, d: Defaults) returns (e: Entry)
      ensures e == ReadEntry(Doc(), sec, d)
    {
      hide GetStr, GetInt, TransportOf, StripQuotes, Loaded;
      var name := IniGetStr(sec, "Name", "");
      var ip := IniGetStr(sec, "ServerIP", "");
      var port := IniGetInt(sec, "ServerPort", DEFAULT_PORT);
      var clientId := IniGetStr(sec, "ClientID", d.clientId);
      var token := IniGetStr(sec, "RegisterToken", d.token);
      var pubKey := IniGetStr(sec, "ServerPubKey", "");
      var managed := IniGetInt(sec, "Managed", 0);
      var transport := IniGetStr(sec, "Transport", "");
      return Entry(StripQuotes(name), ip, port, TransportOf(transport), clientId, token, StripQuotes(pubKey), managed != 0);
    }

    method CollectServers(names: seq<string>, d: Defaults) returns (found: seq<Server>)
      ensures found == Collected(Doc(), names, d)
    {
      hide ReadEntry, ToInt, AllDigits, Loaded;
      found := [];
      for i := 0 to |names|
        invariant found == Collected(Doc(), names[..i], d)
      {
        assert names[..i + 1][..i] == names[..i];
        var sec := names[i];
        if !Numbered(sec) {
          continue;
        }
        var idx := ToInt(sec[6..], 0);
        if idx <= 0 {
          continue;
        }
        var e := ReadServer(sec, d);
        if e.ip != "" {
          found := found + [Server(idx, e)];
        }
      }
      assert names[..|names|] == names;
    }

    method OutOfStep(found: seq<Server>) returns (rebuild: bool)
      ensures rebuild == !InStep(found, GetInt(Doc(), "Server", "Count", 0))
    {
      hide GetInt, Truncated;
      var count := IniGetInt("Server", "Count", 0);
      if Truncated(|found|) != count {
        return true;
      }
      for i := 0 to |found|
        invariant forall j :: 0 <= j < i ==> found[j].number == Truncated(j + 1)
      {
        if found[i].number != Truncated(i + 1) {
          return true;
        }
      }
      return false;
    }

    method DeleteNumbered(names: seq<string>)
      modifies this
      ensures Doc() == Cleared(old(Doc()), names)
    {
      hide Dropped, Numbered, Loaded;
      for i := 0 to |names|
        invariant Doc() == Cleared(old(Doc()), names[..i])
      {
        assert names[..i + 1][..i] == names[..i];
        if Numbered(names[i]) {
          IniDelSection(names[i]);
        }
      }
      assert names[..|names|] == names;
    }

    /** The eight keys of one server, in the order they are written. */
    method WriteServer(sec: string, e: Entry)
      modifies this
      ensures Doc() == Written(old(Doc()), sec, e, |KEYS|)
    {
      hide Put, Number, Loaded;
      ghost var doc := Doc();
      WrittenStep(doc, sec, e);
      IniSetStr(sec, "Name", e.name);
      IniSetStr(sec, "ServerIP", e.ip);
      IniSetStr(sec, "ServerPort", Number(e.port));
      IniSetStr(sec, "Transport", Number(e.transport));
      IniSetStr(sec, "ClientID", e.clientId);
      IniSetStr(sec, "RegisterToken", e.token);
      IniSetStr(sec, "ServerPubKey", e.pubKey);
      IniSetStr(sec, "Managed", if e.managed then "1" else "0");
    }

    method WriteServers(es: seq<Entry>)
      modifies this
      ensures Doc() == Renumbered(old(Doc()), es, |es|)
    {
      hide Written, SectionOf, Loaded;
      for i := 0 to |es|
        invariant Doc() == Renumbered(old(Doc()), es, i)
      {
        WriteServer(SectionOf(i + 1), es[i]);
      }
    }

    /** The list of servers; the file is renumbered first if it is out of step, and left
        as it is if not. */
    method Load(d: Defaults) returns (servers: seq<Entry>)
      modifies this
      ensures Doc() == LoadServers(old(Doc()), d).doc && servers == LoadServers(old(Doc()), d).servers
      ensures !LoadServers(old(Doc()), d).rewritten ==> text == old(text)
    {
      hide Collected, Sorted, InStep, Renumbered, Cleared, Put, SectionNames, Number, GetInt, Entries, Loaded, Truncated;
      var sections := IniSections();
      var found := CollectServers(sections, d);
      found := Sorted(found);
      var rebuild := OutOfStep(found);
      servers := Entries(found);
      if rebuild {
        DeleteNumbered(sections);
        WriteServers(servers);
        IniSetStr("Server", "Count", Number(Truncated(|servers|)));
      }
    }
  }

  lemma WrittenStep(doc: seq<Line>, sec: string, e: Entry)
    ensures Written(doc, sec, e, 8) ==
              Put(Put(Put(Put(Put(Put(Put(Put(doc, sec, "Name", e.name), sec, "ServerIP", e.ip), sec, "ServerPort", Number(e.port)),
                                  sec, "Transport", Number(e.transport)), sec, "ClientID", e.clientId),
                          sec, "RegisterToken", e.token), sec, "ServerPubKey", e.pubKey),
                  sec, "Managed", if e.managed then "1" else "0")
  {
    hide Put, Number;
    assert Written(doc, sec, e, 1) == Put(doc, sec, "Name", e.name);
    assert Written(doc, sec, e, 2) == Put(Written(doc, sec, e, 1), sec, "ServerIP", e.ip);
    assert Written(doc, sec, e, 3) == Put(Written(doc, sec, e, 2), sec, "ServerPort", Number(e.port));
    assert Written(doc, sec, e, 4) == Put(Written(doc, sec, e, 3), sec, "Transport", Number(e.transport));
    assert Written(doc, sec, e, 5) == Put(Written(doc, sec, e, 4), sec, "ClientID", e.clientId);
    assert Written(doc, sec, e, 6) == Put(Written(doc, sec, e, 5), sec, "RegisterToken", e.token);
    assert Written(doc, sec, e, 7) == Put(Written(doc, sec, e, 6), sec, "ServerPubKey", e.pubKey);
  }
}
