/** Writing one value the way the program does: load the file, set the pair, save it
    (Config.cpp, IniSetStr and IniSetInt). Unlike SetKeeps this takes any value of one
    line: blanks at its ends are lost on the way. */
module IniPuts {
  import opened Text
  import opened IniDocs
  import opened IniNames

  /** A key the program uses: it reads back as itself whatever the value is. */
  predicate Plain(key: string)
  {
    key != [] && Tight(key) && '\n' !in key && '=' !in key && !Comment(key) && key[0] != '['
  }

  /** The document that is read after a pair was written. */
  function Put(doc: seq<Line>, sec: string, key: string, val: string): seq<Line>
  {
    Loaded(Saved(Set(doc, sec, key, val)))
  }

  /** The document that is read after a section was deleted. */
  function Dropped(doc: seq<Line>, sec: string): seq<Line>
  {
    Loaded(Saved(WithoutSection(doc, sec, false)))
  }

  // ---- one pair ------------------------------------------------------------------------------

  lemma TrimParts(s: string) returns (w: string, v: string)
    ensures AllBlank(w) && AllBlank(v) && s == w + Trim(s) + v && Tight(Trim(s))
  {
    w := TrimLeftParts(s);
    v := TrimRightParts(TrimLeft(s));
    TrimIsTight(s);
  }

  /** What is left of a written pair when its edges are trimmed. */
  lemma TrimmedPair(key: string, val: string) returns (mid: string)
    requires Plain(key)
    ensures Trim(key + "=" + val) == key + "=" + mid && Trim(mid) == Trim(val)
  {
    var w, v := TrimParts(val);
    var core := Trim(val);
    mid := if core == [] then [] else w + core;
    var t := key + "=" + mid;
    var after := if core == [] then w + v else v;
    assert key + "=" + val == [] + t + after;
    assert Tight(t);
    TrimPadded([], t, after);
    assert w + core + [] == w + core;
    TrimPadded(w, core, []);
  }

  lemma PairParses(key: string, val: string, cur: string)
    requires Plain(key)
    ensures ParseLine(key + "=" + val, cur) == Line(KeyValue, key + "=" + val, cur, key, Trim(val))
  {
    var mid := TrimmedPair(key, val);
    var t := key + "=" + mid;
    var n := IndexOf(t, '=');
    assert t[|key|] == '=' && n <= |key|;
    assert forall i :: 0 <= i < |key| ==> t[i] == key[i] != '=';
    assert t[..n] == key && t[n + 1..] == mid;
    TrimTight(key);
    assert t[0] == key[0];
    hide Trim, IndexOf;
  }

  /** A key that reads as a plain one in some letter case is plain. */
  lemma KeyIsPlain(line: Line, cur: string, key: string)
    requires LineOk(line, cur) && line.kind.KeyValue? && SameName(line.key, key) && Plain(key)
    ensures Plain(line.key)
  {
    var t := Trim(line.text);
    var eq := IndexOf(t, '=');
    assert line.key == Trim(t[..eq]);
    TrimIsTight(line.text);
    TrimIsTight(t[..eq]);
    TrimKeepsOut(t[..eq], '=');
    TrimKeepsOut(line.text, '\n');
    TrimKeepsOut(t[..eq], '\n');
    KeyIsNoComment(t, eq);
    assert LowerChar(line.key[0]) == LowerChar(key[0]);
  }

  // ---- documents that read alike ---------------------------------------------------------------

  predicate Alike(a: Line, b: Line)
  {
    && '\n' !in a.text && '\n' !in b.text
    && ParseLine(a.text, "").(text := "") == ParseLine(b.text, "").(text := "")
  }

  predicate AllAlike(a: seq<Line>, b: seq<Line>)
  {
    |a| == |b| && forall i :: 0 <= i < |a| ==> Alike(a[i], b[i])
  }

  lemma PairsAlike(a: Line, b: Line, key: string, val: string)
    requires Plain(key) && '\n' !in val && a.text == key + "=" + val && b.text == key + "=" + Trim(val)
    ensures Alike(a, b)
  {
    PairParses(key, val, "");
    PairParses(key, Trim(val), "");
    TrimIsTight(val);
    TrimTight(Trim(val));
    TrimKeepsOut(val, '\n');
    hide Trim, ParseLine;
  }

  lemma {:induction false} ReplacedAlike(lines: seq<Line>, cur: string, sec: string, key: string, val: string)
    requires Consistent(lines, cur) && Plain(key) && '\n' !in val
    ensures AllAlike(Replaced(lines, sec, key, val), Replaced(lines, sec, key, Trim(val)))
  {
    hide ParseLine, Trim;
    if lines != [] {
      ConsistentTexts(lines, cur);
      var line := lines[0];
      if Holds(line, sec, key) {
        KeyIsPlain(line, cur, key);
        PairsAlike(Rewritten(line, val), Rewritten(line, Trim(val)), line.key, val);
      } else {
        hide LineOk;
        ReplacedAlike(lines[1..], Next(line, cur), sec, key, val);
      }
    }
  }

  lemma AlikeAround(a: seq<Line>, x: Line, y: Line, b: seq<Line>)
    requires EachOneLine(a) && EachOneLine(b) && Alike(x, y)
    ensures AllAlike(a + [x] + b, a + [y] + b)
  {
    hide ParseLine;
  }

  lemma InsertedAlike(lines: seq<Line>, sec: string, key: string, val: string)
    requires Consistent(lines, "") && Plain(key) && '\n' !in val && '\n' !in sec
    ensures AllAlike(Inserted(lines, sec, key, val), Inserted(lines, sec, key, Trim(val)))
  {
    hide ParseLine, Trim, LineOk, AllAlike, Alike, Consistent, Running, LastHeader, BodyLength, NewSection, Plain;
    var x, y := Pair(sec, key, val), Pair(sec, key, Trim(val));
    PairsAlike(x, y, key, val);
    ConsistentTexts(lines, "");
    var h := LastHeader(lines, sec);
    if h == |lines| {
      NewSectionKeeps(lines, sec);
      ConsistentTexts(NewSection(lines, sec), "");
      AlikeAround(NewSection(lines, sec), x, y, []);
      assert NewSection(lines, sec) + [x] + [] == NewSection(lines, sec) + [x];
      assert NewSection(lines, sec) + [y] + [] == NewSection(lines, sec) + [y];
    } else {
      var at := h + 1 + BodyLength(lines[h + 1..]);
      AlikeAround(lines[..at], x, y, lines[at..]);
    }
  }

  lemma SetAlike(lines: seq<Line>, sec: string, key: string, val: string)
    requires Consistent(lines, "") && Plain(key) && '\n' !in val && '\n' !in sec
    ensures AllAlike(Set(lines, sec, key, val), Set(lines, sec, key, Trim(val)))
  {
    hide AllAlike;
    if Has(lines, sec, key) {
      ReplacedAlike(lines, "", sec, key, val);
    } else {
      InsertedAlike(lines, sec, key, val);
    }
  }

  /** Equal but for their texts. */
  predicate SameLines(a: seq<Line>, b: seq<Line>)
  {
    |a| == |b| && forall i :: 0 <= i < |a| ==> a[i].(text := "") == b[i].(text := "")
  }

  lemma AlikeParses(x: string, y: string, cur: string)
    requires ParseLine(x, "").(text := "") == ParseLine(y, "").(text := "")
    ensures ParseLine(x, cur).(text := "") == ParseLine(y, cur).(text := "")
  {
    hide Trim, IndexOf;
  }

  lemma SameLinesMore(x: Line, y: Line, a: seq<Line>, b: seq<Line>)
    requires x.(text := "") == y.(text := "") && SameLines(a, b)
    ensures SameLines([x] + a, [y] + b)
  {
  }

  lemma AlikeTail(a: seq<Line>, b: seq<Line>)
    requires AllAlike(a, b) && a != []
    ensures |a| == |b| && Alike(a[0], b[0]) && AllAlike(a[1..], b[1..])
  {
    hide Alike;
  }

  lemma AlikeNext(a: Line, b: Line, cur: string)
    requires Alike(a, b)
    ensures ParseLine(DropCr(a.text), cur).(text := "") == ParseLine(DropCr(b.text), cur).(text := "")
  {
    DropCrTrims(a.text, "");
    DropCrTrims(b.text, "");
    AlikeParses(DropCr(a.text), DropCr(b.text), cur);
    hide ParseLine, DropCr;
  }

  lemma {:induction false} AlikeLoads(a: seq<Line>, b: seq<Line>, cur: string)
    requires AllAlike(a, b)
    ensures SameLines(ParseLines(Texts(a), cur), ParseLines(Texts(b), cur))
  {
    if a == [] {
      return;
    }
    hide ParseLine, DropCr, AllAlike, Alike, SameLines;
    AlikeTail(a, b);
    AlikeNext(a[0], b[0], cur);
    var x, y := ParseLine(DropCr(a[0].text), cur), ParseLine(DropCr(b[0].text), cur);
    AlikeLoads(a[1..], b[1..], Next(x, cur));
    SameLinesMore(x, y, ParseLines(Texts(a[1..]), Next(x, cur)), ParseLines(Texts(b[1..]), Next(y, cur)));
  }

  lemma {:induction false} SameLinesRead(a: seq<Line>, b: seq<Line>, sec: string, key: string, def: string)
    requires SameLines(a, b)
    ensures Get(a, sec, key, def) == Get(b, sec, key, def)
  {
    if a != [] {
      assert a[0].(text := "") == b[0].(text := "");
      SameLinesRead(a[1..], b[1..], sec, key, def);
    }
  }

  /** Documents that read alike are the same once saved and loaded. */
  lemma AlikeReloads(a: seq<Line>, b: seq<Line>)
    requires AllAlike(a, b)
    ensures SameLines(Loaded(Saved(a)), Loaded(Saved(b)))
  {
    assert EachOneLine(a) by { assert forall i :: 0 <= i < |a| ==> Alike(a[i], b[i]); }
    assert EachOneLine(b) by { assert forall i :: 0 <= i < |b| ==> Alike(a[i], b[i]); }
    SavedLines(a);
    SavedLines(b);
    AlikeLoads(a, b, "");
  }

  // ---- what is read after a write ---------------------------------------------------------------

  lemma TrimmedStorable(key: string, val: string)
    requires Plain(key) && '\n' !in val
    ensures Storable(key, Trim(val))
  {
    TrimIsTight(val);
    TrimKeepsOut(val, '\n');
  }

  /** After a write the pair reads as the value without blanks at its ends, and every
      other pair as before. */
  lemma PutReads(doc: seq<Line>, sec: string, key: string, val: string, sec': string, key': string, def: string)
    requires Consistent(doc, "") && Plain(key) && '\n' !in val && '\n' !in sec
    ensures Get(Put(doc, sec, key, val), sec', key', def) ==
              if SamePair(sec, key, sec', key') then Trim(val) else Get(doc, sec', key', def)
  {
    hide Plain, Storable, Set, Consistent, AllAlike;
    SetAlike(doc, sec, key, val);
    AlikeReloads(Set(doc, sec, key, val), Set(doc, sec, key, Trim(val)));
    SameLinesRead(Put(doc, sec, key, val), Put(doc, sec, key, Trim(val)), sec', key', def);
    TrimmedStorable(key, val);
    SetKeeps(doc, sec, key, Trim(val));
    SaveThenLoad(Set(doc, sec, key, Trim(val)), sec', key', def);
    GetAfterSet(doc, sec, key, Trim(val), sec', key', def);
  }

  /** The names are the old ones, and the section's if it had no header in any case. */
  lemma PutNames(doc: seq<Line>, sec: string, key: string, val: string)
    requires Consistent(doc, "") && Plain(key) && '\n' !in val && '\n' !in sec && sec != ""
    ensures Consistent(Put(doc, sec, key, val), "")
    ensures var names := SectionNames(doc);
            SectionNames(Put(doc, sec, key, val)) == if Named(names, sec) then names else names + [sec]
  {
    hide Plain, Storable, Set, Consistent, AllAlike, Named, SectionNames;
    LoadedIsConsistent(Saved(Set(doc, sec, key, val)));
    SetAlike(doc, sec, key, val);
    AlikeReloads(Set(doc, sec, key, val), Set(doc, sec, key, Trim(val)));
    SameLinesNames(Put(doc, sec, key, val), Put(doc, sec, key, Trim(val)));
    TrimmedStorable(key, val);
    SetKeeps(doc, sec, key, Trim(val));
    SaveThenNames(Set(doc, sec, key, Trim(val)));
    NamesAfterSet(doc, sec, key, Trim(val));
  }

  lemma SameLinesNames(a: seq<Line>, b: seq<Line>)
    requires SameLines(a, b)
    ensures SectionNames(a) == SectionNames(b)
  {
    forall i | 0 <= i < |a|
      ensures a[i].kind.Section? == b[i].kind.Section? && (a[i].kind.Section? ==> a[i].section == b[i].section)
    {
      assert a[i].(text := "") == b[i].(text := "");
    }
    NamesByHeaders(a, b);
  }

  /** A deletion takes exactly its name off the list. */
  lemma DroppedNames(doc: seq<Line>, sec: string)
    requires Consistent(doc, "")
    ensures Consistent(Dropped(doc, sec), "")
    ensures SectionNames(Dropped(doc, sec)) == Except(SectionNames(doc), sec)
  {
    var kept := WithoutSection(doc, sec, false);
    DelSectionKeeps(doc, "", sec, false, "");
    SaveThenNames(kept);
    LoadedIsConsistent(Saved(kept));
    NamesWithoutSection(doc, sec);
  }
}
