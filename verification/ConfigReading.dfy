/** What one load reads for a server (Config.cpp:336-388): which sections are servers,
    and what each field is when its key is there and when it is not. */
module ConfigReadings {
  import opened Text
  import opened IniDocs
  import opened ConfigServers
  import opened ConfigRenumbers

  // ---- transport ----------------------------------------------------------------------

  lemma {:induction false} LowerAt(s: string)
    ensures |LowerAscii(s)| == |s| && forall i :: 0 <= i < |s| ==> LowerAscii(s)[i] == LowerChar(s[i])
  {
    if s != [] {
      LowerAt(s[1..]);
    }
  }

  /** A text in lower case is the lower-cased form of exactly its spellings. */
  lemma LowerIs(s: string, word: string)
    requires forall i :: 0 <= i < |word| ==> LowerChar(word[i]) == word[i]
    ensures LowerAscii(s) == word <==> SameName(s, word)
  {
    LowerAt(s);
    hide LowerAscii;
    if SameName(s, word) {
      forall i | 0 <= i < |s|
        ensures LowerAscii(s)[i] == word[i]
      {
      }
    }
  }

  /** TCP is spelled 1, tcp, true or yes, in any letter case, blanks and one pair of
      quotes aside; anything else, and nothing, is UDP. */
  lemma TransportIff(doc: seq<Line>, sec: string, d: Defaults)
    ensures var v := StripQuotes(Trim(Get(doc, sec, "Transport", "")));
            && (ReadEntry(doc, sec, d).transport == 1 <==>
                  SameName(v, "1") || SameName(v, "tcp") || SameName(v, "true") || SameName(v, "yes"))
            && ReadEntry(doc, sec, d).transport <= 1
  {
    var v := StripQuotes(Trim(Get(doc, sec, "Transport", "")));
    LowerIs(v, "1");
    LowerIs(v, "tcp");
    LowerIs(v, "true");
    LowerIs(v, "yes");
    hide Get, Trim, StripQuotes, SameName, LowerAscii, GetInt, ToInt;
  }

  // ---- the other fields -------------------------------------------------------------------

  /** A text field is the text read, blanks and quotes aside. */
  lemma {:induction false} GetWhere(doc: seq<Line>, sec: string, key: string, def: string)
    ensures Has(doc, sec, key) ==> exists i :: 0 <= i < |doc| && Holds(doc[i], sec, key) && Get(doc, sec, key, def) == doc[i].value
    ensures !Has(doc, sec, key) ==> Get(doc, sec, key, def) == def
  {
    hide Holds;
    if doc != [] && !Holds(doc[0], sec, key) {
      GetWhere(doc[1..], sec, key, def);
      if Has(doc[1..], sec, key) {
        var i :| 0 <= i < |doc| - 1 && Holds(doc[1..][i], sec, key) && Get(doc[1..], sec, key, def) == doc[1..][i].value;
        assert Holds(doc[i + 1], sec, key);
      }
    }
  }

  /** The section holds these texts, and no other of the keys. */
  ghost predicate Holding(doc: seq<Line>, sec: string, texts: map<string, string>)
  {
    forall key, def :: key in KEYS ==> Get(doc, sec, key, def) == if key in texts then texts[key] else def
  }

  /** Blanks and one pair of quotes aside. */
  function Bare(s: string): string
  {
    StripQuotes(Trim(s))
  }

  function TextOr(texts: map<string, string>, key: string, def: string): string
  {
    Bare(if key in texts then texts[key] else def)
  }

  /** Each text field is that of its own key, and where the key is missing client id and
      token are those of the identity section, name, address and key empty. */
  lemma TextFields(doc: seq<Line>, sec: string, d: Defaults, texts: map<string, string>)
    requires Holding(doc, sec, texts)
    ensures var e := ReadEntry(doc, sec, d);
            && e.clientId == TextOr(texts, "ClientID", d.clientId) && e.token == TextOr(texts, "RegisterToken", d.token)
            && e.ip == TextOr(texts, "ServerIP", "")
            && e.name == StripQuotes(TextOr(texts, "Name", "")) && e.pubKey == StripQuotes(TextOr(texts, "ServerPubKey", ""))
  {
    KeysThere();
    hide Get, Trim, StripQuotes, GetInt, TransportOf;
  }

  lemma KeysThere()
    ensures forall key :: key in {"Name", "ServerIP", "ServerPort", "Transport", "ClientID", "RegisterToken", "ServerPubKey", "Managed"}
              ==> key in KEYS
  {
    OtherKeyNames();
    assert KEYS[0] in KEYS && KEYS[1] in KEYS && KEYS[2] in KEYS && KEYS[3] in KEYS
           && KEYS[4] in KEYS && KEYS[5] in KEYS && KEYS[6] in KEYS && KEYS[7] in KEYS;
  }

  lemma OtherKeyNames()
    ensures |KEYS| == 8 && KEYS[0] == "Name" && KEYS[1] == "ServerIP" && KEYS[2] == "ServerPort" && KEYS[3] == "Transport"
    ensures KEYS[4] == "ClientID" && KEYS[5] == "RegisterToken" && KEYS[6] == "ServerPubKey" && KEYS[7] == "Managed"
  {
  }

  /** A number as it is printed, with blanks before it and anything but a digit behind
      it, is that number. */
  lemma NumberReads(n: int, rest: string, def: int)
    requires INT_MIN <= n <= INT_MAX && (rest != [] ==> !IsDigit(rest[0]))
    ensures ToInt(Number(n) + rest, def) == n
  {
    NumberStart(n, rest);
    ScanOfNumber(n, rest);
    hide Number, ScanInt;
  }

  /** The port and the managed flag: as printed, or 51820 and unmanaged. */
  lemma NumberFields(doc: seq<Line>, sec: string, d: Defaults, texts: map<string, string>, port: int, flag: int)
    requires Holding(doc, sec, texts) && INT_MIN <= port <= INT_MAX && INT_MIN <= flag <= INT_MAX
    requires if "ServerPort" in texts then texts["ServerPort"] == Number(port) else port == DEFAULT_PORT
    requires if "Managed" in texts then texts["Managed"] == Number(flag) else flag == 0
    ensures ReadEntry(doc, sec, d).port == port && (ReadEntry(doc, sec, d).managed <==> flag != 0)
  {
    KeysThere();
    IntReads(port, DEFAULT_PORT);
    IntReads(flag, 0);
    hide Get, Number, ToInt, KEYS, GetStr, TransportOf, StripQuotes;
    HoldingAt(doc, sec, texts, "ServerPort", Number(DEFAULT_PORT));
    HoldingAt(doc, sec, texts, "Managed", Number(0));
  }

  lemma HoldingAt(doc: seq<Line>, sec: string, texts: map<string, string>, key: string, def: string)
    requires Holding(doc, sec, texts) && key in KEYS
    ensures Get(doc, sec, key, def) == if key in texts then texts[key] else def
  {
  }

  /** A section without any of the keys but its address. */
  lemma MissingKeys(doc: seq<Line>, sec: string, ip: string, d: Defaults)
    requires Holding(doc, sec, map["ServerIP" := ip])
    ensures ReadEntry(doc, sec, d) == Entry("", Bare(ip), 51820, 0, Bare(d.clientId), Bare(d.token), "", false)
  {
    var texts := map["ServerIP" := ip];
    TextFields(doc, sec, d, texts);
    NumberFields(doc, sec, d, texts, DEFAULT_PORT, 0);
    TransportIff(doc, sec, d);
    KeysThere();
    HoldingAt(doc, sec, texts, "Transport", "");
    NothingLeft();
    hide *;
  }

  lemma NothingLeft()
    ensures Bare("") == "" && StripQuotes("") == "" && StripQuotes(Trim("")) == ""
    ensures !SameName("", "1") && !SameName("", "tcp") && !SameName("", "true") && !SameName("", "yes")
  {
  }

  // ---- which sections are servers -----------------------------------------------------------

  /** A section of a server: its name is Server and digits worth a positive int, and it
      has an address. */
  predicate IsServer(doc: seq<Line>, sec: string, d: Defaults)
  {
    Numbered(sec) && ToInt(sec[6..], 0) > 0 && ReadEntry(doc, sec, d).ip != ""
  }

  function ServerAt(doc: seq<Line>, sec: string, d: Defaults): Server
    requires Numbered(sec)
  {
    Server(ToInt(sec[6..], 0), ReadEntry(doc, sec, d))
  }

  lemma CollectedMore(doc: seq<Line>, names: seq<string>, sec: string, d: Defaults)
    ensures Collected(doc, names + [sec], d)
            == Collected(doc, names, d) + if IsServer(doc, sec, d) then [ServerAt(doc, sec, d)] else []
  {
    assert (names + [sec])[..|names|] == names;
    hide ReadEntry, ToInt, Numbered;
  }

  predicate IsAt(doc: seq<Line>, sec: string, d: Defaults, s: Server)
  {
    IsServer(doc, sec, d) && ServerAt(doc, sec, d) == s
  }

  ghost predicate ServerOf(doc: seq<Line>, names: seq<string>, d: Defaults, s: Server)
  {
    exists sec :: sec in names && IsAt(doc, sec, d, s)
  }

  lemma ServerOfMore(doc: seq<Line>, names: seq<string>, sec: string, d: Defaults, s: Server)
    ensures ServerOf(doc, names + [sec], d, s) <==> ServerOf(doc, names, d, s) || IsAt(doc, sec, d, s)
  {
    hide IsAt;
    assert forall x :: x in names + [sec] <==> x in names || x == sec;
  }

  lemma InMore(doc: seq<Line>, sec: string, d: Defaults, found: seq<Server>, s: Server)
    ensures s in found + (if IsServer(doc, sec, d) then [ServerAt(doc, sec, d)] else []) <==>
              s in found || IsAt(doc, sec, d, s)
  {
    hide IsServer, ServerAt;
  }

  lemma {:induction false} CollectedIff(doc: seq<Line>, names: seq<string>, d: Defaults, s: Server)
    ensures s in Collected(doc, names, d) <==> ServerOf(doc, names, d, s)
  {
    if names == [] {
      return;
    }
    var front, last := names[..|names| - 1], names[|names| - 1];
    assert names == front + [last];
    hide *;
    CollectedIff(doc, front, d, s);
    CollectedMore(doc, front, last, d);
    InMore(doc, last, d, Collected(doc, front, d), s);
    ServerOfMore(doc, front, last, d, s);
  }

  ghost function Sections(doc: seq<Line>, names: seq<string>, d: Defaults): set<string>
  {
    set sec | sec in names && IsServer(doc, sec, d)
  }

  lemma SectionsMore(doc: seq<Line>, names: seq<string>, sec: string, d: Defaults)
    requires sec !in names
    ensures |Sections(doc, names + [sec], d)| == |Sections(doc, names, d)| + if IsServer(doc, sec, d) then 1 else 0
  {
    hide IsServer;
    var before, after := Sections(doc, names, d), Sections(doc, names + [sec], d);
    assert after == if IsServer(doc, sec, d) then before + {sec} else before;
  }

  lemma {:induction false} CollectedCount(doc: seq<Line>, names: seq<string>, d: Defaults)
    requires forall i, j :: 0 <= i < j < |names| ==> names[i] != names[j]
    ensures |Collected(doc, names, d)| == |Sections(doc, names, d)|
  {
    hide IsServer, ServerAt;
    if names != [] {
      var front, last := names[..|names| - 1], names[|names| - 1];
      assert names == front + [last] && last !in front;
      CollectedCount(doc, front, d);
      CollectedMore(doc, front, last, d);
      SectionsMore(doc, front, last, d);
      hide Collected, Sections;
    } else {
      assert Sections(doc, names, d) == {};
    }
  }

  /** The list read holds the servers of the sections of the file, each once and no
      others. */
  lemma FoundIff(doc: seq<Line>, d: Defaults, s: Server)
    ensures s in Found(doc, d) <==> ServerOf(doc, SectionNames(doc), d, s)
    ensures |Found(doc, d)| == |Sections(doc, SectionNames(doc), d)|
  {
    var all := Collected(doc, SectionNames(doc), d);
    CollectedIff(doc, SectionNames(doc), d, s);
    NamesApart(doc);
    CollectedCount(doc, SectionNames(doc), d);
    SortedIsPermutation(all);
    hide Collected, Sorted, IsServer, SectionNames, Sections;
    assert s in Found(doc, d) <==> s in multiset(Sorted(all));
    assert s in all <==> s in multiset(all);
    assert |multiset(all)| == |all| && |multiset(Sorted(all))| == |Sorted(all)|;
  }

  lemma NamesApart(doc: seq<Line>)
    ensures forall i, j :: 0 <= i < j < |SectionNames(doc)| ==> SectionNames(doc)[i] != SectionNames(doc)[j]
  {
    NamesDistinct(doc);
    var names := SectionNames(doc);
    hide SectionNames;
    forall i, j | 0 <= i < j < |names|
      ensures names[i] != names[j]
    {
      SameNameRefl(names[i]);
    }
  }

  /** The file is rewritten unless the count says how many servers there are and they
      are numbered 1, 2 and so on. */
  lemma RewritesIff(doc: seq<Line>, d: Defaults)
    requires |Found(doc, d)| <= INT_MAX
    ensures var found := Found(doc, d);
            LoadServers(doc, d).rewritten <==>
              !(GetInt(doc, "Server", "Count", 0) == |found| && forall i :: 0 <= i < |found| ==> found[i].number == i + 1)
  {
    RewrittenIff(doc, d);
    hide Found, GetInt, LoadServers;
  }
}
