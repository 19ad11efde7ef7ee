/** When one load of the server list leaves a file that the next load finds in step
    with the same list, and what happens when it does not (Config.cpp:331-440). */
module ConfigRenumbers {
  import opened Text
  import opened IniDocs
  import opened IniNames
  import opened IniPuts
  import opened ConfigServers

  // ---- values survive a write and a read ------------------------------------------------------

  predicate IsLine(s: string)
  {
    '\n' !in s
  }

  /** What every entry read from a file is like. */
  predicate Readable(e: Entry)
  {
    && IsLine(e.name) && IsLine(e.ip) && IsLine(e.clientId) && IsLine(e.token) && IsLine(e.pubKey)
    && e.ip != "" && INT_MIN <= e.port <= INT_MAX && e.transport <= 1
  }

  predicate AllReadable(es: seq<Entry>)
  {
    forall i :: 0 <= i < |es| ==> Readable(es[i])
  }

  /** A value without blanks at its edges or quotes around it. */
  predicate Clean(s: string)
  {
    Tight(s) && !Wrapped(s)
  }

  predicate Lasting(e: Entry)
  {
    Clean(e.name) && Clean(e.ip) && Clean(e.clientId) && Clean(e.token) && Clean(e.pubKey)
  }

  /** One more trim and strip of every field. */
  function Reread(e: Entry): Entry
  {
    Entry(StripQuotes(StripQuotes(Trim(e.name))), StripQuotes(Trim(e.ip)), e.port, e.transport,
          StripQuotes(Trim(e.clientId)), StripQuotes(Trim(e.token)), StripQuotes(StripQuotes(Trim(e.pubKey))), e.managed)
  }

  lemma CleanIff(s: string)
    ensures StripQuotes(Trim(s)) == s <==> Clean(s)
    ensures StripQuotes(StripQuotes(Trim(s))) == s <==> Clean(s)
  {
    var w, v := TrimParts(s);
    if Tight(s) {
      TrimTight(s);
    }
    assert |Trim(s)| <= |s| && |StripQuotes(Trim(s))| <= |Trim(s)|;
  }

  lemma LastingIff(e: Entry)
    ensures Reread(e) == e <==> Lasting(e)
  {
    CleanIff(e.name);
    CleanIff(e.ip);
    CleanIff(e.clientId);
    CleanIff(e.token);
    CleanIff(e.pubKey);
    hide StripQuotes, Trim, Clean;
  }

  lemma IntReads(n: int, def: int)
    requires INT_MIN <= n <= INT_MAX
    ensures ToInt(Number(n), def) == n
  {
    hide Number, ScanInt;
    NumberStart(n, []);
    ScanOfNumber(n, []);
    assert Number(n) + [] == Number(n);
  }

  lemma FlagReads()
    ensures Number(0) == "0" && Number(1) == "1" && ToInt("0", 0) == 0 && ToInt("1", 0) == 1
    ensures TransportOf(StripQuotes(Trim("0"))) == 0 && TransportOf(StripQuotes(Trim("1"))) == 1
  {
    assert Number(0) == "0" && Number(1) == "1";
    IntReads(0, 0);
    IntReads(1, 0);
    TrimTight("0");
    TrimTight("1");
    hide ToInt, Number;
    assert LowerAscii("0") == "0" && LowerAscii("1") == "1";
  }

  /** The pairs of an entry stand in a section, as they read after a save. */
  ghost predicate Stands(doc: seq<Line>, sec: string, e: Entry)
  {
    forall a, def :: 0 <= a < |KEYS| ==> Get(doc, sec, KEYS[a], def) == Trim(ConfigServers.Texts(e)[a])
  }

  lemma TrimTwice(s: string)
    ensures Trim(Trim(s)) == Trim(s)
  {
    TrimIsTight(s);
    TrimTight(Trim(s));
  }

  lemma NumberTrims(n: int)
    ensures Trim(Number(n)) == Number(n) && '\n' !in Number(n)
  {
    NumberIsClean(n);
    TrimTight(Number(n));
  }

  lemma NumberIsClean(n: int)
    ensures Tight(Number(n)) && '\n' !in Number(n)
  {
    var s := Number(n);
    assert forall i :: 0 <= i < |s| ==> s[i] == '-' || IsDigit(s[i]);
  }

  /** An entry whose keys stand in a section is read back with every field trimmed and
      stripped once more; the defaults play no part. */
  lemma EntryReads(doc: seq<Line>, sec: string, e: Entry, d: Defaults)
    requires Stands(doc, sec, e) && Readable(e)
    ensures ReadEntry(doc, sec, d) == Reread(e)
  {
    hide Stands, Get, IsLine, ToInt, Trim, StripQuotes, TransportOf, Number;
    StandsAt(doc, sec, e, d);
    TrimTwice(e.name);
    TrimTwice(e.ip);
    TrimTwice(e.clientId);
    TrimTwice(e.token);
    TrimTwice(e.pubKey);
    IntReads(e.port, DEFAULT_PORT);
    FlagReads();
  }

  lemma StandsAt(doc: seq<Line>, sec: string, e: Entry, d: Defaults)
    requires Stands(doc, sec, e)
    ensures Get(doc, sec, "Name", "") == Trim(e.name) && Get(doc, sec, "ServerIP", "") == Trim(e.ip)
    ensures Get(doc, sec, "ServerPort", Number(DEFAULT_PORT)) == Number(e.port)
    ensures Get(doc, sec, "Transport", "") == Number(e.transport)
    ensures Get(doc, sec, "ClientID", d.clientId) == Trim(e.clientId) && Get(doc, sec, "RegisterToken", d.token) == Trim(e.token)
    ensures Get(doc, sec, "ServerPubKey", "") == Trim(e.pubKey)
    ensures Get(doc, sec, "Managed", Number(0)) == (if e.managed then "1" else "0")
  {
    NumberTrims(e.port);
    NumberTrims(e.transport);
    NumberTrims(0);
    NumberTrims(1);
    FlagReads();
    hide Get, Number, Trim;
    var t := ConfigServers.Texts(e);
    assert Get(doc, sec, KEYS[0], "") == Trim(t[0]);
    assert Get(doc, sec, KEYS[1], "") == Trim(t[1]);
    assert Get(doc, sec, KEYS[2], Number(DEFAULT_PORT)) == Trim(t[2]);
    assert Get(doc, sec, KEYS[3], "") == Trim(t[3]);
    assert Get(doc, sec, KEYS[4], d.clientId) == Trim(t[4]);
    assert Get(doc, sec, KEYS[5], d.token) == Trim(t[5]);
    assert Get(doc, sec, KEYS[6], "") == Trim(t[6]);
    assert Get(doc, sec, KEYS[7], Number(0)) == Trim(t[7]);
  }

  // ---- names ------------------------------------------------------------------------------------

  lemma KeysDiffer(a: nat, b: nat)
    requires a < |KEYS| && b < |KEYS| && a != b
    ensures !SameName(KEYS[a], KEYS[b])
  {
    assert |KEYS[0]| == 4 && |KEYS[1]| == 8 && |KEYS[2]| == 10 && |KEYS[3]| == 9
           && |KEYS[4]| == 8 && |KEYS[5]| == 13 && |KEYS[6]| == 12 && |KEYS[7]| == 7;
    assert KEYS[1][0] == 'S' && KEYS[4][0] == 'C';
  }

  lemma SectionsDiffer(j: nat, k: nat)
    requires j != k
    ensures !SameName(SectionOf(j), SectionOf(k))
  {
    var x, y := Decimal(j), Decimal(k);
    if SameName(SectionOf(j), SectionOf(k)) {
      assert |x| == |y|;
      forall i | 0 <= i < |x|
        ensures x[i] == y[i]
      {
        assert SectionOf(j)[6 + i] == x[i] && SectionOf(k)[6 + i] == y[i];
        assert LowerChar(x[i]) == x[i] && LowerChar(y[i]) == y[i];
      }
      assert x == y;
      ValueOfDecimal(j);
      ValueOfDecimal(k);
    }
  }

  lemma SectionIsNumbered(k: nat)
    requires 0 < k <= INT_MAX
    ensures Numbered(SectionOf(k)) && ToInt(SectionOf(k)[6..], 0) == k
    ensures !SameName(SectionOf(k), "Server") && !Numbered("Server") && '\n' !in SectionOf(k)
  {
    var d := Decimal(k);
    assert SectionOf(k)[..6] == "Server" && SectionOf(k)[6..] == d;
    IntReads(k, 0);
    assert Number(k) == d;
    hide ToInt;
    assert forall i :: 0 <= i < |d| ==> IsDigit(d[i]) && d[i] != '\n';
    assert forall i :: 0 <= i < |SectionOf(k)| ==> SectionOf(k)[i] == (if i < 6 then "Server"[i] else d[i - 6]);
  }

  lemma KeysArePlain(a: nat)
    requires a < |KEYS|
    ensures Plain(KEYS[a])
  {
    assert KEYS[a] in KEYS;
  }

  /** What an entry is written as is text of one line. */
  lemma TextsAreLines(e: Entry, a: nat)
    requires Readable(e) && a < |KEYS|
    ensures '\n' !in ConfigServers.Texts(e)[a]
  {
    NumberIsClean(e.port);
    NumberIsClean(e.transport);
    hide Number;
  }

  // ---- what was read from a file ---------------------------------------------------------------

  lemma {:induction false} GetIsLine(lines: seq<Line>, cur: string, sec: string, key: string, def: string)
    requires Consistent(lines, cur) && IsLine(def)
    ensures IsLine(Get(lines, sec, key, def))
  {
    if lines != [] {
      GetIsLine(lines[1..], Next(lines[0], cur), sec, key, def);
      if Holds(lines[0], sec, key) {
        var t := Trim(lines[0].text);
        TrimKeepsOut(lines[0].text, '\n');
        TrimKeepsOut(t[IndexOf(t, '=') + 1..], '\n');
      }
    }
  }

  lemma StripIsLine(s: string)
    requires IsLine(s)
    ensures IsLine(Trim(s)) && IsLine(StripQuotes(s))
  {
    TrimKeepsOut(s, '\n');
    hide Trim;
  }

  lemma GetStrIsLine(doc: seq<Line>, sec: string, key: string, def: string)
    requires Consistent(doc, "") && IsLine(def)
    ensures IsLine(GetStr(doc, sec, key, def))
  {
    hide Get, Trim, StripQuotes, Consistent, IsLine;
    GetIsLine(doc, "", sec, key, def);
    StripIsLine(Get(doc, sec, key, def));
    StripIsLine(Trim(Get(doc, sec, key, def)));
  }

  lemma ToIntInRange(s: string, def: int)
    requires INT_MIN <= def <= INT_MAX
    ensures INT_MIN <= ToInt(s, def) <= INT_MAX
  {
    hide ScanInt, SkipTabs;
  }

  lemma EntryIsReadable(doc: seq<Line>, sec: string, d: Defaults)
    requires Consistent(doc, "")
    ensures var e := ReadEntry(doc, sec, d);
            e.ip != "" ==> Readable(e)
  {
    hide GetStr, GetInt, StripQuotes, Consistent, TransportOf, IsLine;
    assert IsLine("") && IsLine(d.clientId) && IsLine(d.token) by { Lines(d); }
    GetStrIsLine(doc, sec, "Name", "");
    GetStrIsLine(doc, sec, "ServerIP", "");
    GetStrIsLine(doc, sec, "ClientID", d.clientId);
    GetStrIsLine(doc, sec, "RegisterToken", d.token);
    GetStrIsLine(doc, sec, "ServerPubKey", "");
    StripIsLine(GetStr(doc, sec, "Name", ""));
    StripIsLine(GetStr(doc, sec, "ServerPubKey", ""));
    PortInRange(doc, sec);
    TransportIsFlag(GetStr(doc, sec, "Transport", ""));
  }

  lemma Lines(d: Defaults)
    ensures IsLine("") && IsLine(d.clientId) && IsLine(d.token)
  {
  }

  lemma PortInRange(doc: seq<Line>, sec: string)
    ensures INT_MIN <= GetInt(doc, sec, "ServerPort", DEFAULT_PORT) <= INT_MAX
  {
    ToIntInRange(Get(doc, sec, "ServerPort", Number(DEFAULT_PORT)), DEFAULT_PORT);
    hide ToInt;
  }

  lemma TransportIsFlag(s: string)
    ensures TransportOf(s) <= 1
  {
  }

  predicate Usual(s: Server)
  {
    s.number > 0 && Readable(s.entry)
  }

  lemma {:induction false} CollectsUsual(doc: seq<Line>, names: seq<string>, d: Defaults)
    requires Consistent(doc, "")
    ensures forall i :: 0 <= i < |Collected(doc, names, d)| ==> Usual(Collected(doc, names, d)[i])
  {
    hide Consistent, ReadEntry, ToInt, Readable, Numbered;
    if names != [] {
      CollectsUsual(doc, names[..|names| - 1], d);
      EntryIsReadable(doc, names[|names| - 1], d);
    }
  }

  /** Every server found has a positive number and text fields of one line. */
  lemma FoundUsual(doc: seq<Line>, d: Defaults)
    requires Consistent(doc, "")
    ensures forall i :: 0 <= i < |Found(doc, d)| ==> Usual(Found(doc, d)[i])
  {
    var all := Collected(doc, SectionNames(doc), d);
    CollectsUsual(doc, SectionNames(doc), d);
    SortedIsPermutation(all);
    hide Consistent, Collected, Sorted, Usual;
    forall i | 0 <= i < |Found(doc, d)|
      ensures Usual(Found(doc, d)[i])
    {
      assert Found(doc, d)[i] in multiset(Sorted(all));
      assert Found(doc, d)[i] in all;
    }
  }

  lemma {:induction false} EntriesAt(found: seq<Server>)
    ensures |Entries(found)| == |found| && forall i :: 0 <= i < |found| ==> Entries(found)[i] == found[i].entry
  {
    if found != [] {
      EntriesAt(found[..|found| - 1]);
    }
  }

  lemma FoundReadable(doc: seq<Line>, d: Defaults)
    requires Consistent(doc, "")
    ensures AllReadable(Entries(Found(doc, d)))
  {
    FoundUsual(doc, d);
    EntriesAt(Found(doc, d));
    hide Consistent, Found, Readable;
    assert forall i :: 0 <= i < |Found(doc, d)| ==> Usual(Found(doc, d)[i]);
  }

  // ---- clearing ----------------------------------------------------------------------------------

  ghost predicate Shadows(names: seq<string>, k: nat)
  {
    exists i :: 0 <= i < |names| && names[i] != SectionOf(k) && SameName(names[i], SectionOf(k))
  }

  /** A header spells the section of number k in other letter case, and comes before
      any that spells it as the program does. */
  ghost predicate Shadowed(doc: seq<Line>, k: nat)
  {
    Shadows(SectionNames(doc), k)
  }

  lemma {:induction false} InExcept(names: seq<string>, sec: string, x: string)
    ensures x in Except(names, sec) <==> x in names && !SameName(x, sec)
  {
    if names != [] {
      InExcept(names[..|names| - 1], sec, x);
      assert names == names[..|names| - 1] + [names[|names| - 1]];
      hide SameName;
    }
  }

  /** The deletions take off the list exactly the names that equal, up to case, one of
      the numbered ones given. */
  lemma {:induction false} ClearedNames(doc: seq<Line>, names: seq<string>, x: string)
    requires Consistent(doc, "")
    ensures Consistent(Cleared(doc, names), "")
    ensures x in SectionNames(Cleared(doc, names)) <==>
              x in SectionNames(doc) && forall i :: 0 <= i < |names| && Numbered(names[i]) ==> !SameName(x, names[i])
  {
    hide Consistent, SameName, Numbered, SectionNames, Dropped;
    if names != [] {
      var front, last := names[..|names| - 1], names[|names| - 1];
      ClearedNames(doc, front, x);
      assert forall i :: 0 <= i < |front| ==> front[i] == names[i];
      if Numbered(last) {
        DroppedNames(Cleared(doc, front), last);
        InExcept(SectionNames(Cleared(doc, front)), last, x);
      }
    }
  }

  /** Section names are listed once up to case. */
  lemma {:induction false} NamesDistinct(lines: seq<Line>)
    ensures forall i, j :: 0 <= i < j < |SectionNames(lines)| ==> !SameName(SectionNames(lines)[i], SectionNames(lines)[j])
  {
    hide SameName;
    if lines != [] {
      NamesDistinct(lines[..|lines| - 1]);
    }
  }

  /** So the clearing leaves exactly the names that are not numbered. */
  lemma RestNames(doc: seq<Line>, x: string)
    requires Consistent(doc, "")
    ensures x in SectionNames(Cleared(doc, SectionNames(doc))) <==> x in SectionNames(doc) && !Numbered(x)
  {
    var names := SectionNames(doc);
    ClearedNames(doc, names, x);
    NamesDistinct(doc);
    SameNameRefl(x);
    hide Consistent, Numbered, SectionNames, Cleared;
    if x in names {
      var i :| 0 <= i < |names| && names[i] == x;
      forall j | 0 <= j < |names| && SameName(x, names[j])
        ensures j == i
      {
        SameNameThrough(x, names[j], names[j]);
      }
    }
  }

  lemma NumberedIsOwn(x: string, k: nat)
    requires SameName(x, SectionOf(k))
    ensures Numbered(x) <==> x == SectionOf(k)
  {
    var s, d := SectionOf(k), Decimal(k);
    assert s[..6] == "Server" && s[6..] == d;
    if Numbered(x) {
      forall i | 0 <= i < |x|
        ensures x[i] == s[i]
      {
        assert LowerChar(x[i]) == LowerChar(s[i]);
        assert i < 6 ==> x[i] == x[..6][i] == "Server"[i];
        assert i >= 6 ==> x[i] == x[6..][i - 6] && s[i] == d[i - 6];
      }
    }
    assert AllDigits(d);
  }

  lemma ShadowedIsNamed(doc: seq<Line>, k: nat)
    requires Consistent(doc, "")
    ensures Named(SectionNames(Cleared(doc, SectionNames(doc))), SectionOf(k)) <==> Shadowed(doc, k)
  {
    var names, rest := SectionNames(doc), SectionNames(Cleared(doc, SectionNames(doc)));
    hide Consistent, Numbered, SectionNames, Cleared, SameName, SectionOf;
    if Named(rest, SectionOf(k)) {
      var i :| 0 <= i < |rest| && SameName(rest[i], SectionOf(k));
      RestNames(doc, rest[i]);
      NumberedIsOwn(rest[i], k);
      var j :| 0 <= j < |names| && names[j] == rest[i];
    }
    if Shadowed(doc, k) {
      var i :| 0 <= i < |names| && names[i] != SectionOf(k) && SameName(names[i], SectionOf(k));
      NumberedIsOwn(names[i], k);
      RestNames(doc, names[i]);
      var j :| 0 <= j < |rest| && rest[j] == names[i];
    }
  }

  // ---- writing ----------------------------------------------------------------------------------

  lemma {:induction false} WrittenNames(doc: seq<Line>, sec: string, e: Entry, n: nat)
    requires Consistent(doc, "") && Readable(e) && n <= |KEYS| && sec != "" && '\n' !in sec
    ensures Consistent(Written(doc, sec, e, n), "")
    ensures var names := SectionNames(doc);
            SectionNames(Written(doc, sec, e, n)) == if n == 0 || Named(names, sec) then names else names + [sec]
  {
    hide Consistent, Readable, Named, Put, Plain, SectionNames;
    if n > 0 {
      var before := Written(doc, sec, e, n - 1);
      WrittenNames(doc, sec, e, n - 1);
      KeysArePlain(n - 1);
      TextsAreLines(e, n - 1);
      PutNames(before, sec, KEYS[n - 1], ConfigServers.Texts(e)[n - 1]);
      NamedKeeps(SectionNames(doc), sec, sec);
      SameNameRefl(sec);
    }
  }

  /** The names that the sections 1 to n add to a list. */
  function Added(base: seq<string>, n: nat): seq<string>
  {
    if n == 0 then [] else Added(base, n - 1) + (if Named(base, SectionOf(n)) then [] else [SectionOf(n)])
  }

  lemma {:induction false} NamedAfter(base: seq<string>, n: nat, k: nat)
    requires n < k
    ensures Named(base + Added(base, n), SectionOf(k)) <==> Named(base, SectionOf(k))
  {
    if n == 0 {
      assert base + [] == base;
    } else {
      NamedAfter(base, n - 1, k);
      SectionsDiffer(n, k);
      hide Named, SameName, SectionOf;
      if Named(base, SectionOf(n)) {
        assert Added(base, n) == Added(base, n - 1);
      } else {
        assert base + Added(base, n) == base + Added(base, n - 1) + [SectionOf(n)];
        NamedKeeps(base + Added(base, n - 1), SectionOf(n), SectionOf(k));
      }
    }
  }

  lemma SectionIsLine(k: nat)
    ensures '\n' !in SectionOf(k) && SectionOf(k) != ""
  {
    var d := Decimal(k);
    assert forall i :: 0 <= i < |SectionOf(k)| ==> SectionOf(k)[i] == (if i < 6 then "Server"[i] else d[i - 6]);
    assert forall i :: 0 <= i < |d| ==> IsDigit(d[i]) && d[i] != '\n';
  }

  lemma {:induction false} RenumberedNames(doc: seq<Line>, es: seq<Entry>, n: nat)
    requires Consistent(doc, "") && n <= |es| && AllReadable(es)
    ensures Consistent(Renumbered(doc, es, n), "")
    ensures SectionNames(Renumbered(doc, es, n)) == SectionNames(doc) + Added(SectionNames(doc), n)
  {
    hide Consistent, Readable, Named, SectionNames, SectionOf, Written;
    if n == 0 {
      assert SectionNames(doc) + [] == SectionNames(doc);
    } else {
      var base := SectionNames(doc);
      RenumberedNames(doc, es, n - 1);
      SectionIsLine(n);
      NamedAfter(base, n - 1, n);
      WrittenNames(Renumbered(doc, es, n - 1), SectionOf(n), es[n - 1], |KEYS|);
      assert base + Added(base, n - 1) + [SectionOf(n)] == base + (Added(base, n - 1) + [SectionOf(n)]);
    }
  }

  // ---- reading what was written ------------------------------------------------------------------

  lemma {:induction false} WrittenStands(doc: seq<Line>, sec: string, e: Entry, n: nat, a: nat, def: string)
    requires Consistent(doc, "") && Readable(e) && a < n <= |KEYS| && sec != "" && '\n' !in sec
    ensures Get(Written(doc, sec, e, n), sec, KEYS[a], def) == Trim(ConfigServers.Texts(e)[a])
  {
    hide Consistent, Readable, Put, Plain, SectionNames, SameName, Get, Trim, Named, ConfigServers.Texts, KEYS;
    var before := Written(doc, sec, e, n - 1);
    WrittenNames(doc, sec, e, n - 1);
    KeysArePlain(n - 1);
    TextsAreLines(e, n - 1);
    SameNameRefl(sec);
    SameNameRefl(KEYS[a]);
    PutReads(before, sec, KEYS[n - 1], ConfigServers.Texts(e)[n - 1], sec, KEYS[a], def);
    if a < n - 1 {
      KeysDiffer(n - 1, a);
      WrittenStands(doc, sec, e, n - 1, a, def);
    }
  }

  lemma {:induction false} WrittenElsewhere(doc: seq<Line>, sec: string, e: Entry, n: nat, sec': string, key: string, def: string)
    requires Consistent(doc, "") && Readable(e) && n <= |KEYS| && sec != "" && '\n' !in sec && !SameName(sec, sec')
    ensures Get(Written(doc, sec, e, n), sec', key, def) == Get(doc, sec', key, def)
  {
    if n > 0 {
      hide Consistent, Readable, Put, Plain, SectionNames, SameName, Get, Named, ConfigServers.Texts;
      WrittenNames(doc, sec, e, n - 1);
      KeysArePlain(n - 1);
      TextsAreLines(e, n - 1);
      PutReads(Written(doc, sec, e, n - 1), sec, KEYS[n - 1], ConfigServers.Texts(e)[n - 1], sec', key, def);
      WrittenElsewhere(doc, sec, e, n - 1, sec', key, def);
    }
  }

  /** After the rewriting every entry stands in the section of its new number. */
  lemma {:induction false} RenumberedStands(doc: seq<Line>, es: seq<Entry>, n: nat, k: nat)
    requires Consistent(doc, "") && 0 < k <= n <= |es| && AllReadable(es)
    ensures Stands(Renumbered(doc, es, n), SectionOf(k), es[k - 1])
  {
    var before := Renumbered(doc, es, n - 1);
    RenumberedNames(doc, es, n - 1);
    SectionIsLine(n);
    if k < n {
      RenumberedStands(doc, es, n - 1, k);
      SectionsDiffer(n, k);
    }
    hide SameName, SectionOf, Consistent, Readable, Written, SectionNames, Trim, Get;
    forall a, def | 0 <= a < |KEYS|
      ensures Get(Renumbered(doc, es, n), SectionOf(k), KEYS[a], def) == Trim(ConfigServers.Texts(es[k - 1])[a])
    {
      if k == n {
        WrittenStands(before, SectionOf(n), es[n - 1], |KEYS|, a, def);
      } else {
        WrittenElsewhere(before, SectionOf(n), es[n - 1], |KEYS|, SectionOf(k), KEYS[a], def);
      }
    }
  }

  lemma CountIsPlain()
    ensures Plain("Count") && '\n' !in "Server"
  {
  }

  /** What a rewrite leaves. */
  lemma RewriteLeaves(doc: seq<Line>, es: seq<Entry>)
    requires Consistent(doc, "") && AllReadable(es)
    ensures var base, after := SectionNames(Cleared(doc, SectionNames(doc))), SectionNames(Rewrite(doc, es));
            after == base + Added(base, |es|) || after == base + Added(base, |es|) + ["Server"]
    ensures Consistent(Rewrite(doc, es), "")
    ensures forall k :: 0 < k <= |es| ==> Stands(Rewrite(doc, es), SectionOf(k), es[k - 1])
    ensures GetInt(Rewrite(doc, es), "Server", "Count", 0) == Truncated(|es|)
  {
    var cleared := Cleared(doc, SectionNames(doc));
    var before := Renumbered(cleared, es, |es|);
    var text := Number(Truncated(|es|));
    hide Consistent, Readable, Cleared, SectionNames, Added, SectionOf, Named, Put, Stands, Plain, Number, Truncated;
    ClearedNames(doc, SectionNames(doc), "");
    RenumberedNames(cleared, es, |es|);
    CountIsPlain();
    NumberTrims(Truncated(|es|));
    PutNames(before, "Server", "Count", text);
    forall k | 0 < k <= |es|
      ensures Stands(Rewrite(doc, es), SectionOf(k), es[k - 1])
    {
      RenumberedStands(cleared, es, |es|, k);
      NotServer(k);
      CountedStands(before, SectionOf(k), es[k - 1], text);
    }
    CountReads(before, |es|);
  }

  lemma NotServer(k: nat)
    ensures !SameName("Server", SectionOf(k))
  {
  }

  lemma CountedStands(doc: seq<Line>, sec: string, e: Entry, text: string)
    requires Consistent(doc, "") && Stands(doc, sec, e) && !SameName("Server", sec) && '\n' !in text
    ensures Stands(Put(doc, "Server", "Count", text), sec, e)
  {
    CountIsPlain();
    hide SameName, Put, Consistent, Plain;
    forall a, def | 0 <= a < |KEYS|
      ensures Get(Put(doc, "Server", "Count", text), sec, KEYS[a], def) == Trim(ConfigServers.Texts(e)[a])
    {
      PutReads(doc, "Server", "Count", text, sec, KEYS[a], def);
    }
  }

  lemma CountReads(doc: seq<Line>, n: nat)
    requires Consistent(doc, "")
    ensures GetInt(Put(doc, "Server", "Count", Number(Truncated(n))), "Server", "Count", 0) == Truncated(n)
  {
    CountIsPlain();
    NumberTrims(Truncated(n));
    SameNameRefl("Server");
    SameNameRefl("Count");
    PutReads(doc, "Server", "Count", Number(Truncated(n)), "Server", "Count", Number(0));
    IntReads(Truncated(n), 0);
    hide Number, ToInt, Get, Put, Consistent;
  }

  // ---- the next load ---------------------------------------------------------------------------------

  /** What the next load collects of the first n entries: those whose section has come
      back under its own name, as they then read. */
  ghost function Again(doc: seq<Line>, es: seq<Entry>, n: nat): seq<Server>
    requires n <= |es|
  {
    if n == 0 then []
    else if Shadowed(doc, n) || Reread(es[n - 1]).ip == "" then Again(doc, es, n - 1)
    else Again(doc, es, n - 1) + [Server(n, Reread(es[n - 1]))]
  }

  lemma {:induction false} CollectsNone(doc: seq<Line>, names: seq<string>, d: Defaults)
    requires forall i :: 0 <= i < |names| ==> !Numbered(names[i])
    ensures Collected(doc, names, d) == []
  {
    hide ReadEntry, ToInt, Numbered;
    if names != [] {
      CollectsNone(doc, names[..|names| - 1], d);
    }
  }

  lemma CollectsOne(doc: seq<Line>, names: seq<string>, sec: string, n: nat, e: Entry, d: Defaults)
    requires Numbered(sec) && ToInt(sec[6..], 0) == n > 0 && ReadEntry(doc, sec, d) == e
    ensures Collected(doc, names + [sec], d) == Collected(doc, names, d) + if e.ip == "" then [] else [Server(n, e)]
  {
    assert (names + [sec])[..|names|] == names;
    hide ToInt, ReadEntry, Numbered;
  }

  lemma {:induction false} CollectsAgain(doc: seq<Line>, after: seq<Line>, es: seq<Entry>, n: nat, d: Defaults)
    requires Consistent(doc, "") && n <= |es| <= INT_MAX && AllReadable(es)
    requires forall k :: 0 < k <= |es| ==> Stands(after, SectionOf(k), es[k - 1])
    ensures var base := SectionNames(Cleared(doc, SectionNames(doc)));
            Collected(after, base + Added(base, n), d) == Again(doc, es, n)
  {
    hide Consistent, Readable, Stands, SectionOf, Collected, Shadowed, Cleared, SectionNames, Reread, ReadEntry, Named, Numbered, ToInt;
    var base := SectionNames(Cleared(doc, SectionNames(doc)));
    if n == 0 {
      assert base + [] == base;
      forall i | 0 <= i < |base|
        ensures !Numbered(base[i])
      {
        RestNames(doc, base[i]);
      }
      CollectsNone(after, base, d);
    } else {
      CollectsAgain(doc, after, es, n - 1, d);
      ShadowedIsNamed(doc, n);
      SectionIsNumbered(n);
      assert Readable(es[n - 1]) && Stands(after, SectionOf(n), es[n - 1]);
      EntryReads(after, SectionOf(n), es[n - 1], d);
      CollectsOne(after, base + Added(base, n - 1), SectionOf(n), n, Reread(es[n - 1]), d);
      AddedMore(base, n);
      assert Again(doc, es, n - 1) + [] == Again(doc, es, n - 1);
    }
  }

  lemma AddedMore(base: seq<string>, n: nat)
    requires n > 0
    ensures base + Added(base, n) == (base + Added(base, n - 1)) + if Named(base, SectionOf(n)) then [] else [SectionOf(n)]
    ensures Named(base, SectionOf(n)) ==> base + Added(base, n) == base + Added(base, n - 1)
  {
    hide Named, SectionOf;
  }

  lemma LastNotNumbered(doc: seq<Line>, names: seq<string>, d: Defaults)
    ensures Collected(doc, names + ["Server"], d) == Collected(doc, names, d)
  {
    assert (names + ["Server"])[..|names|] == names;
    assert !Numbered("Server");
  }

  lemma {:induction false} AgainRises(doc: seq<Line>, es: seq<Entry>, n: nat)
    requires n <= |es|
    ensures var a := Again(doc, es, n);
            |a| <= n && Ascending(a) && forall i :: 0 <= i < |a| ==> 0 < a[i].number <= n
  {
    hide Shadowed, Reread;
    if n > 0 {
      AgainRises(doc, es, n - 1);
    }
  }

  lemma {:induction false} AscendingIsSorted(found: seq<Server>)
    requires Ascending(found)
    ensures Sorted(found) == found
  {
    if found != [] {
      var front, last := found[..|found| - 1], found[|found| - 1];
      AscendingIsSorted(front);
      assert found == front + [last];
      PlacedLast(front, last);
    }
  }

  lemma PlacedLast(sorted: seq<Server>, s: Server)
    requires sorted == [] || sorted[|sorted| - 1].number <= s.number
    ensures Placed(sorted, s) == sorted + [s]
  {
  }

  lemma FoundAfter(doc: seq<Line>, es: seq<Entry>, d: Defaults)
    requires Consistent(doc, "") && |es| <= INT_MAX && AllReadable(es)
    ensures Found(Rewrite(doc, es), d) == Again(doc, es, |es|)
    ensures GetInt(Rewrite(doc, es), "Server", "Count", 0) == |es| && Consistent(Rewrite(doc, es), "")
  {
    hide Consistent, Readable, Stands, SectionOf, Collected, Sorted, Cleared, SectionNames, Rewrite, GetInt, Added, Again, Ascending;
    var after := Rewrite(doc, es);
    var base := SectionNames(Cleared(doc, SectionNames(doc)));
    RewriteLeaves(doc, es);
    CollectsAgain(doc, after, es, |es|, d);
    LastNotNumbered(after, base + Added(base, |es|), d);
    AgainRises(doc, es, |es|);
    AscendingIsSorted(Again(doc, es, |es|));
  }

  /** The next load of a file that was rewritten, whatever its defaults are. */
  lemma FoundAgain(doc: seq<Line>, d: Defaults, d': Defaults)
    requires Consistent(doc, "") && LoadServers(doc, d).rewritten && |Found(doc, d)| <= INT_MAX
    ensures var once := LoadServers(doc, d);
            && Found(once.doc, d') == Again(doc, once.servers, |once.servers|)
            && GetInt(once.doc, "Server", "Count", 0) == |once.servers| == |Found(doc, d)|
            && Consistent(once.doc, "")
  {
    hide Consistent, Readable, Found, Rewrite, GetInt, Entries, InStep, Again;
    var es := Entries(Found(doc, d));
    EntriesAt(Found(doc, d));
    FoundReadable(doc, d);
    FoundAfter(doc, es, d');
  }

  /** All of them come back as they were exactly when each does. */
  lemma {:induction false} AgainIsAllIff(doc: seq<Line>, es: seq<Entry>, n: nat)
    requires n <= |es| && AllReadable(es)
    ensures Whole(doc, es, n) <==> AllReturn(doc, es, n)
    ensures Whole(doc, es, n) ==> Counted(Again(doc, es, n))
  {
    ReadableAt(es);
    hide *;
    if n == 0 {
      AgainNone(doc, es);
    } else {
      AgainIsAllIff(doc, es, n - 1);
      AgainLast(doc, es, n);
      AllReturnMore(doc, es, n);
    }
  }

  lemma ReadableAt(es: seq<Entry>)
    requires AllReadable(es)
    ensures forall i :: 0 <= i < |es| ==> Readable(es[i])
  {
    hide Readable;
  }

  lemma AgainNone(doc: seq<Line>, es: seq<Entry>)
    ensures Whole(doc, es, 0) && AllReturn(doc, es, 0) && Counted(Again(doc, es, 0))
  {
  }

  /** The first n entries are those the next load collects of them. */
  ghost predicate Whole(doc: seq<Line>, es: seq<Entry>, n: nat)
    requires n <= |es|
  {
    Entries(Again(doc, es, n)) == es[..n]
  }

  ghost predicate AllReturn(doc: seq<Line>, es: seq<Entry>, n: nat)
  {
    forall k :: 0 < k <= n ==> Returns(doc, es, k)
  }

  lemma AllReturnMore(doc: seq<Line>, es: seq<Entry>, n: nat)
    requires n > 0
    ensures AllReturn(doc, es, n) <==> AllReturn(doc, es, n - 1) && Returns(doc, es, n)
  {
    hide Returns;
  }

  /** The entry comes back in its section as it was. */
  ghost predicate Returns(doc: seq<Line>, es: seq<Entry>, k: int)
  {
    0 < k <= |es| && !Shadowed(doc, k) && Lasting(es[k - 1])
  }

  predicate Counted(found: seq<Server>)
  {
    forall i :: 0 <= i < |found| ==> found[i].number == i + 1
  }

  lemma AgainLast(doc: seq<Line>, es: seq<Entry>, n: nat)
    requires 0 < n <= |es| && Readable(es[n - 1])
    ensures var before, all := Again(doc, es, n - 1), Again(doc, es, n);
            && (Whole(doc, es, n) <==> Whole(doc, es, n - 1) && Returns(doc, es, n))
            && (Whole(doc, es, n) && Counted(before) ==> Counted(all))
  {
    hide Shadowed, Reread, Lasting, Readable, Entries, Ascending, Again;
    var before, last := Again(doc, es, n - 1), Server(n, Reread(es[n - 1]));
    AgainRises(doc, es, n - 1);
    EntriesAt(before);
    EntriesMore(before, last);
    LastingIff(es[n - 1]);
    NotBlank(es[n - 1]);
    FrontAndLast(Entries(before), last.entry, es[..n - 1], es[n - 1]);
    assert es[..n] == es[..n - 1] + [es[n - 1]];
    AgainCases(doc, es, n);
    if Again(doc, es, n) == before + [last] {
      CountedMore(before, n, last.entry);
    }
  }

  lemma AgainCases(doc: seq<Line>, es: seq<Entry>, n: nat)
    requires 0 < n <= |es|
    ensures Again(doc, es, n) == if Shadowed(doc, n) || Reread(es[n - 1]).ip == "" then Again(doc, es, n - 1)
                                 else Again(doc, es, n - 1) + [Server(n, Reread(es[n - 1]))]
  {
    hide Shadowed, Reread;
  }

  lemma CountedMore(found: seq<Server>, n: nat, e: Entry)
    ensures Counted(found) && |found| == n - 1 ==> Counted(found + [Server(n, e)])
  {
  }

  lemma FrontAndLast(a: seq<Entry>, x: Entry, b: seq<Entry>, y: Entry)
    ensures a + [x] == b + [y] <==> a == b && x == y
  {
    if a + [x] == b + [y] {
      assert (a + [x])[..|a|] == a && (b + [y])[..|b|] == b;
      assert (a + [x])[|a|] == x && (b + [y])[|b|] == y;
    }
  }

  lemma NotBlank(e: Entry)
    requires Readable(e)
    ensures e.ip != ""
  {
  }

  lemma EntriesMore(found: seq<Server>, s: Server)
    ensures Entries(found + [s]) == Entries(found) + [s.entry]
  {
    assert (found + [s])[..|found|] == found;
  }

  /** The next load returns the same list and writes nothing. */
  ghost predicate Settles(doc: seq<Line>, d: Defaults)
  {
    var once := LoadServers(doc, d);
    var twice := LoadServers(once.doc, d);
    twice.servers == once.servers && !twice.rewritten
  }

  /** No header has the number of a server in other letter case, and every text field
      collected is free of blanks and quotes at its ends. */
  ghost predicate Stable(doc: seq<Line>, found: seq<Server>)
  {
    |found| <= INT_MAX && forall k :: 0 < k <= |found| ==> Stays(doc, found, k)
  }

  /** One load settles the file exactly when it is in step already or so collected. */
  lemma SettlesIff(doc: seq<Line>, d: Defaults)
    requires Consistent(doc, "")
    ensures Settles(doc, d) <==>
              InStep(Found(doc, d), GetInt(doc, "Server", "Count", 0)) || Stable(doc, Found(doc, d))
  {
    hide Consistent, Found, GetInt, Rewrite, Stable, InStep, Entries;
    if LoadServers(doc, d).rewritten {
      hide Settles, LoadServers;
      if |Found(doc, d)| <= INT_MAX {
        SettlesShort(doc, d);
      } else {
        SettlesLong(doc, d);
        NotStable(doc, Found(doc, d));
      }
      RewrittenIff(doc, d);
    }
  }

  lemma RewrittenIff(doc: seq<Line>, d: Defaults)
    ensures LoadServers(doc, d).rewritten <==> !InStep(Found(doc, d), GetInt(doc, "Server", "Count", 0))
    ensures LoadServers(doc, d).servers == Entries(Found(doc, d))
  {
    hide Found, GetInt, Rewrite, InStep, Entries;
  }

  lemma NotStable(doc: seq<Line>, found: seq<Server>)
    requires |found| > INT_MAX
    ensures !Stable(doc, found)
  {
  }

  lemma StableReturns(doc: seq<Line>, found: seq<Server>)
    requires |found| <= INT_MAX
    ensures Stable(doc, found) <==> AllReturn(doc, Entries(found), |Entries(found)|)
  {
    var es := Entries(found);
    EntriesAt(found);
    forall k | 0 < k <= |found|
      ensures Returns(doc, es, k) <==> Stays(doc, found, k)
    {
      assert es[k - 1] == found[k - 1].entry;
    }
    hide Shadowed, Lasting, Entries, Returns, Stays;
  }

  /** The server of number k comes back in its own section as it was. */
  ghost predicate Stays(doc: seq<Line>, found: seq<Server>, k: int)
  {
    0 < k <= |found| && !Shadowed(doc, k) && Lasting(found[k - 1].entry)
  }

  lemma SettlesShort(doc: seq<Line>, d: Defaults)
    requires Consistent(doc, "") && LoadServers(doc, d).rewritten && |Found(doc, d)| <= INT_MAX
    ensures Settles(doc, d) <==> Stable(doc, Found(doc, d))
  {
    hide Consistent, Found, GetInt, Rewrite, AllReturn, Stable, Entries, AllReadable, Again, InStep, Counted, LoadServers;
    var es := Entries(Found(doc, d));
    var once := LoadServers(doc, d);
    RewrittenIff(doc, d);
    RewrittenIff(once.doc, d);
    var again := Again(doc, es, |es|);
    FoundAgain(doc, d, d);
    FoundReadable(doc, d);
    AgainIsAllIff(doc, es, |es|);
    EntriesAt(again);
    StableReturns(doc, Found(doc, d));
    assert es[..|es|] == es;
    assert Whole(doc, es, |es|) <==> Entries(again) == es;
    if Entries(again) == es {
      assert |again| == |es|;
      CountedInStep(again);
    }
    assert LoadServers(once.doc, d).servers == Entries(again);
    assert LoadServers(once.doc, d).rewritten <==> !InStep(again, |es|);
  }

  lemma CountedInStep(found: seq<Server>)
    requires Counted(found) && |found| <= INT_MAX
    ensures InStep(found, |found|)
  {
  }

  /** No list of more than INT_MAX servers is in step. */
  lemma SettlesLong(doc: seq<Line>, d: Defaults)
    requires Consistent(doc, "") && LoadServers(doc, d).rewritten && |Found(doc, d)| > INT_MAX
    ensures !Settles(doc, d)
  {
    hide Consistent, Found, GetInt, Rewrite, Entries, AllReadable, InStep, LoadServers;
    var once := LoadServers(doc, d);
    RewrittenIff(doc, d);
    RewrittenIff(once.doc, d);
    EntriesAt(Found(doc, d));
    EntriesAt(Found(once.doc, d));
    FoundReadable(doc, d);
    LoadLeaves(doc, d);
    RewriteLeaves(doc, once.servers);
    if Settles(doc, d) {
      TooLong(once.doc, d);
    }
  }

  lemma LoadLeaves(doc: seq<Line>, d: Defaults)
    requires LoadServers(doc, d).rewritten
    ensures LoadServers(doc, d).doc == Rewrite(doc, LoadServers(doc, d).servers)
  {
    hide Found, GetInt, Rewrite, Entries, InStep;
  }

  lemma TooLong(doc: seq<Line>, d: Defaults)
    requires Consistent(doc, "") && |Found(doc, d)| > INT_MAX
    ensures !InStep(Found(doc, d), GetInt(doc, "Server", "Count", 0))
  {
    hide Found, GetInt, Consistent, Readable, Truncated;
    FoundUsual(doc, d);
    assert Usual(Found(doc, d)[INT_MAX]);
    assert Truncated(INT_MAX + 1) < 0 by { Wraps(); }
  }

  lemma Wraps()
    ensures Truncated(INT_MAX + 1) == INT_MIN
  {
  }

  /** After a rewrite the defaults of the next load make no difference. */
  lemma SettlesForAll(doc: seq<Line>, d: Defaults, d': Defaults)
    requires Consistent(doc, "") && LoadServers(doc, d).rewritten && Settles(doc, d)
    ensures LoadServers(LoadServers(doc, d).doc, d') == LoadServers(LoadServers(doc, d).doc, d)
  {
    SettlesIff(doc, d);
    FoundAgain(doc, d, d);
    FoundAgain(doc, d, d');
    hide Consistent, Found, GetInt, Rewrite, Lasting, Shadowed, Entries, Again;
  }

  // ---- a shadowed first section ------------------------------------------------------------------

  /** Some header spells the first section in other letter case, none another one's. */
  ghost predicate OnlyFirst(doc: seq<Line>)
  {
    Shadowed(doc, 1) && forall k :: k > 1 ==> !Shadowed(doc, k)
  }

  predicate AllLasting(es: seq<Entry>)
  {
    forall i :: 0 <= i < |es| ==> Lasting(es[i])
  }

  lemma {:induction false} AddedAreSections(base: seq<string>, n: nat, k: nat, x: string)
    requires x in Added(base, n) && SameName(x, SectionOf(k))
    ensures x == SectionOf(k)
  {
    if x in Added(base, n - 1) {
      AddedAreSections(base, n - 1, k, x);
    } else if n != k {
      SectionsDiffer(n, k);
    }
  }

  lemma ShadowsMember(names: seq<string>, x: string, k: nat)
    requires x in names && x != SectionOf(k) && SameName(x, SectionOf(k))
    ensures Shadows(names, k)
  {
    hide SameName, SectionOf;
    var i :| 0 <= i < |names| && names[i] == x;
  }

  /** A rewrite leaves the headers in other letter case as they are. */
  lemma ShadowedStays(doc: seq<Line>, es: seq<Entry>, k: nat)
    requires Consistent(doc, "") && AllReadable(es)
    ensures Shadowed(Rewrite(doc, es), k) <==> Shadowed(doc, k)
  {
    hide Consistent, AllReadable, Rewrite, Cleared, SectionNames, Added, SectionOf, SameName, Named, Stands, Numbered;
    var base, after := SectionNames(Cleared(doc, SectionNames(doc))), SectionNames(Rewrite(doc, es));
    RewriteLeaves(doc, es);
    ShadowedIsNamed(doc, k);
    if Shadows(after, k) {
      var i :| 0 <= i < |after| && after[i] != SectionOf(k) && SameName(after[i], SectionOf(k));
      ShadowIsOld(base, after, |es|, k, after[i]);
      RestNames(doc, after[i]);
      ShadowsMember(SectionNames(doc), after[i], k);
    }
    if Shadowed(doc, k) {
      var i :| 0 <= i < |SectionNames(doc)| && SectionNames(doc)[i] != SectionOf(k) && SameName(SectionNames(doc)[i], SectionOf(k));
      var x := SectionNames(doc)[i];
      NumberedIsOwn(x, k);
      RestNames(doc, x);
      assert x in after;
      ShadowsMember(after, x, k);
    }
  }

  lemma ShadowIsOld(base: seq<string>, after: seq<string>, n: nat, k: nat, x: string)
    requires after == base + Added(base, n) || after == base + Added(base, n) + ["Server"]
    requires x in after && x != SectionOf(k) && SameName(x, SectionOf(k))
    ensures x in base
  {
    if x in Added(base, n) {
      AddedAreSections(base, n, k, x);
    }
    NotServer(k);
    hide Added, SectionOf, SameName;
  }

  ghost predicate Shifted(doc: seq<Line>, es: seq<Entry>, n: nat)
    requires n <= |es|
  {
    Entries(Again(doc, es, n)) == if n == 0 then [] else es[1..n]
  }

  lemma {:induction false} AgainShifted(doc: seq<Line>, es: seq<Entry>, n: nat)
    requires OnlyFirst(doc) && n <= |es| && AllReadable(es) && AllLasting(es)
    ensures Shifted(doc, es, n)
  {
    hide *;
    if n == 0 {
      NothingAgain(doc, es);
    } else {
      AgainShifted(doc, es, n - 1);
      ShiftStep(doc, es, n);
      ShiftedMore(doc, es, n);
    }
  }

  lemma ShiftedMore(doc: seq<Line>, es: seq<Entry>, n: nat)
    requires 0 < n <= |es| && Shifted(doc, es, n - 1)
    requires Again(doc, es, n) == if n == 1 then Again(doc, es, 0) else Again(doc, es, n - 1) + [Server(n, es[n - 1])]
    ensures Shifted(doc, es, n)
  {
    hide Again, Entries;
    if n == 1 {
      assert es[1..1] == [];
    } else {
      EntriesMore(Again(doc, es, n - 1), Server(n, es[n - 1]));
      TailMore(es, n);
    }
  }

  lemma TailMore(es: seq<Entry>, n: nat)
    requires 1 < n <= |es|
    ensures es[1..n] == es[1..n - 1] + [es[n - 1]]
  {
  }

  lemma ShiftStep(doc: seq<Line>, es: seq<Entry>, n: nat)
    requires OnlyFirst(doc) && 0 < n <= |es| && AllReadable(es) && AllLasting(es)
    ensures Again(doc, es, n) == if n == 1 then Again(doc, es, 0) else Again(doc, es, n - 1) + [Server(n, es[n - 1])]
  {
    AgainCases(doc, es, n);
    assert Readable(es[n - 1]) && Lasting(es[n - 1]);
    LastingIff(es[n - 1]);
    NotBlank(es[n - 1]);
    hide AllReadable, AllLasting, Readable, Lasting, Reread, Shadowed, Again;
  }

  lemma NothingAgain(doc: seq<Line>, es: seq<Entry>)
    ensures Shifted(doc, es, 0)
  {
  }

  /** A file to be rewritten whose first section is shadowed. */
  ghost predicate Leaking(doc: seq<Line>, d: Defaults, es: seq<Entry>)
  {
    && Consistent(doc, "") && OnlyFirst(doc) && LoadServers(doc, d).rewritten
    && LoadServers(doc, d).servers == es && |es| <= INT_MAX && AllLasting(es)
  }

  lemma LeakStep(doc: seq<Line>, d: Defaults, es: seq<Entry>)
    requires Leaking(doc, d, es) && es != []
    ensures Leaking(LoadServers(doc, d).doc, d, es[1..])
  {
    var once := LoadServers(doc, d);
    hide Consistent, OnlyFirst, LoadServers, AllLasting, Found, Entries, Again, GetInt, InStep, AllReadable;
    RewrittenIff(doc, d);
    RewrittenIff(once.doc, d);
    EntriesAt(Found(doc, d));
    FoundAgain(doc, d, d);
    FoundReadable(doc, d);
    AgainShifted(doc, es, |es|);
    assert es[1..|es|] == es[1..];
    EntriesAt(Found(once.doc, d));
    ShortIsOut(Found(once.doc, d));
    LoadLeaves(doc, d);
    FirstStays(doc, es);
    TailLasts(es);
  }

  lemma ShortIsOut(found: seq<Server>)
    requires |found| < INT_MAX
    ensures !InStep(found, |found| + 1)
  {
  }

  lemma TailLasts(es: seq<Entry>)
    requires AllLasting(es) && es != []
    ensures AllLasting(es[1..])
  {
    hide Lasting;
  }

  lemma FirstStays(doc: seq<Line>, es: seq<Entry>)
    requires Consistent(doc, "") && AllReadable(es) && OnlyFirst(doc)
    ensures OnlyFirst(Rewrite(doc, es))
  {
    hide Consistent, AllReadable, Shadowed, Rewrite;
    ShadowedStays(doc, es, 1);
    forall k | k > 1
      ensures !Shadowed(Rewrite(doc, es), k)
    {
      ShadowedStays(doc, es, k);
    }
  }

  function AfterLoads(doc: seq<Line>, d: Defaults, n: nat): seq<Line>
  {
    if n == 0 then doc else LoadServers(AfterLoads(doc, d, n - 1), d).doc
  }

  /** Then every load loses the first server of the list, down to none. */
  lemma {:induction false} LosesOneEachLoad(doc: seq<Line>, d: Defaults, n: nat)
    requires Leaking(doc, d, LoadServers(doc, d).servers) && n <= |LoadServers(doc, d).servers|
    ensures LoadServers(AfterLoads(doc, d, n), d).servers == LoadServers(doc, d).servers[n..]
    ensures Leaking(AfterLoads(doc, d, n), d, LoadServers(doc, d).servers[n..])
  {
    hide LoadServers;
    var es := LoadServers(doc, d).servers;
    if n == 0 {
      assert es[0..] == es;
    } else {
      LosesOneEachLoad(doc, d, n - 1);
      LeakStep(AfterLoads(doc, d, n - 1), d, es[n - 1..]);
      assert es[n - 1..][1..] == es[n..];
    }
    hide OnlyFirst, AllLasting, Consistent;
  }
}
