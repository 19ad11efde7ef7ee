/** What editing an INI document, and saving and loading it in between, does to its
    section names and to the values read (src/platform/ini_doc.h, Config.cpp). */
module IniNames {
  import opened Text
  import opened IniDocs

  // ---- names and headers ------------------------------------------------------------------

  predicate HeaderAt(lines: seq<Line>, i: int, sec: string)
  {
    0 <= i < |lines| && lines[i].kind.Section? && SameName(lines[i].section, sec)
  }

  predicate HasHeader(lines: seq<Line>, sec: string)
  {
    exists i :: 0 <= i < |lines| && HeaderAt(lines, i, sec)
  }

  lemma NamedKeeps(names: seq<string>, more: string, sec: string)
    ensures Named(names + [more], sec) <==> Named(names, sec) || SameName(more, sec)
  {
    var all := names + [more];
    hide SameName;
    assert all[|names|] == more;
    forall i | 0 <= i < |names|
      ensures all[i] == names[i]
    {
    }
    if Named(names, sec) {
      var i :| 0 <= i < |names| && SameName(names[i], sec);
      assert SameName(all[i], sec);
    }
  }

  /** A section is among the names exactly when some header names it. */
  lemma {:induction false} NamedIffHeader(lines: seq<Line>, sec: string)
    ensures Named(SectionNames(lines), sec) <==> HasHeader(lines, sec)
  {
    if lines != [] {
      var front, last := lines[..|lines| - 1], lines[|lines| - 1];
      var names := SectionNames(front);
      NamedIffHeader(front, sec);
      HeadersOfFront(lines, sec);
      if last.kind.Section? {
        NamedKeeps(names, last.section, sec);
        NamedThrough(names, last.section, sec);
      }
      hide SameName, Named, HasHeader;
    }
  }

  lemma HeadersOfFront(lines: seq<Line>, sec: string)
    requires lines != []
    ensures var last := lines[|lines| - 1];
            HasHeader(lines, sec) <==>
              HasHeader(lines[..|lines| - 1], sec) || (last.kind.Section? && SameName(last.section, sec))
  {
    hide SameName;
    var front := lines[..|lines| - 1];
    assert HeaderAt(lines, |lines| - 1, sec) <==> lines[|lines| - 1].kind.Section? && SameName(lines[|lines| - 1].section, sec);
    if i :| 0 <= i < |front| && HeaderAt(front, i, sec) {
      assert HeaderAt(lines, i, sec);
    }
    if i :| 0 <= i < |lines| && HeaderAt(lines, i, sec) {
      assert i < |front| ==> HeaderAt(front, i, sec);
    }
  }

  lemma NamedThrough(names: seq<string>, a: string, b: string)
    ensures Named(names, a) && SameName(a, b) ==> Named(names, b)
  {
    if Named(names, a) && SameName(a, b) {
      var i :| 0 <= i < |names| && SameName(names[i], a);
      SameNameThrough(a, b, names[i]);
      hide SameName;
      assert SameName(names[i], b);
    }
  }

  /** Only headers matter for the names. */
  lemma {:induction false} NamesByHeaders(a: seq<Line>, b: seq<Line>)
    requires |a| == |b|
    requires forall i :: 0 <= i < |a| ==> a[i].kind.Section? == b[i].kind.Section? && (a[i].kind.Section? ==> a[i].section == b[i].section)
    ensures SectionNames(a) == SectionNames(b)
  {
    hide Named;
    if a != [] {
      NamesByHeaders(a[..|a| - 1], b[..|b| - 1]);
    }
  }

  lemma {:induction false} NamesWithout(a: seq<Line>, line: Line, b: seq<Line>)
    requires !line.kind.Section?
    ensures SectionNames(a + [line] + b) == SectionNames(a + b)
  {
    hide Named;
    if b == [] {
      assert a + [line] + b == a + [line] && a + b == a;
      assert (a + [line])[..|a|] == a;
    } else {
      var front, last := b[..|b| - 1], b[|b| - 1];
      NamesWithout(a, line, front);
      assert (a + [line] + b)[..|a + [line] + b| - 1] == a + [line] + front;
      assert (a + b)[..|a + b| - 1] == a + front;
    }
  }

  lemma {:induction false} ReplacedHeaders(lines: seq<Line>, sec: string, key: string, val: string)
    ensures var r := Replaced(lines, sec, key, val);
            |r| == |lines| && forall i :: 0 <= i < |r| ==>
              r[i].kind.Section? == lines[i].kind.Section? && (r[i].kind.Section? ==> r[i].section == lines[i].section)
  {
    hide SameName;
    if lines != [] && !Holds(lines[0], sec, key) {
      ReplacedHeaders(lines[1..], sec, key, val);
    }
  }

  lemma HeaderIsLast(lines: seq<Line>, sec: string)
    ensures LastHeader(lines, sec) < |lines| <==> HasHeader(lines, sec)
  {
    hide SameName;
    if LastHeader(lines, sec) < |lines| {
      assert HeaderAt(lines, LastHeader(lines, sec), sec);
    } else if i :| 0 <= i < |lines| && HeaderAt(lines, i, sec) {
      HeaderFound(lines, sec, i);
    }
  }

  lemma {:induction false} HeaderFound(lines: seq<Line>, sec: string, i: nat)
    requires HeaderAt(lines, i, sec)
    ensures LastHeader(lines, sec) < |lines|
  {
    hide SameName;
    if i > 0 {
      HeaderFound(lines[1..], sec, i - 1);
    }
  }

  /** In a consistent document a pair stands under a header of its section. */
  lemma {:induction false} PairHasHeader(lines: seq<Line>, cur: string, sec: string, key: string)
    requires Consistent(lines, cur) && Has(lines, sec, key)
    ensures SameName(cur, sec) || HasHeader(lines, sec)
  {
    if Holds(lines[0], sec, key) {
      SameNameThrough(lines[0].section, cur, sec);
    } else {
      PairHasHeader(lines[1..], Next(lines[0], cur), sec, key);
      hide SameName, LineOk, Holds;
      if i :| 0 <= i < |lines| - 1 && HeaderAt(lines[1..], i, sec) {
        assert HeaderAt(lines, i + 1, sec);
      } else if lines[0].kind.Section? {
        assert HeaderAt(lines, 0, sec);
      }
    }
  }

  /** A set adds its section to the names, unless it is there. */
  lemma NamesAfterSet(lines: seq<Line>, sec: string, key: string, val: string)
    requires Consistent(lines, "") && sec != ""
    ensures var names := SectionNames(lines);
            SectionNames(Set(lines, sec, key, val)) == if Named(names, sec) then names else names + [sec]
  {
    NamedIffHeader(lines, sec);
    HeaderIsLast(lines, sec);
    hide HasHeader, Named, Consistent, SectionNames, LastHeader, BodyLength, NewSection;
    if Has(lines, sec, key) {
      PairHasHeader(lines, "", sec, key);
      ReplacedHeaders(lines, sec, key, val);
      NamesByHeaders(Replaced(lines, sec, key, val), lines);
    } else {
      var h := LastHeader(lines, sec);
      if h < |lines| {
        var at := h + 1 + BodyLength(lines[h + 1..]);
        NamesWithout(lines[..at], Pair(sec, key, val), lines[at..]);
        assert lines[..at] + lines[at..] == lines;
      } else {
        NamesOfNew(lines, sec, Pair(sec, key, val));
      }
    }
  }

  lemma NamesOfNew(lines: seq<Line>, sec: string, pair: Line)
    requires !pair.kind.Section? && !Named(SectionNames(lines), sec)
    ensures SectionNames(NewSection(lines, sec) + [pair]) == SectionNames(lines) + [sec]
  {
    hide Named;
    var blank := Line(Other, "", "", "", "");
    var head := Line(Section, "[" + sec + "]", sec, "", "");
    var spaced := if lines != [] && lines[|lines| - 1].text != [] then lines + [blank] else lines;
    NamesWithout(lines, blank, []);
    assert lines + [blank] + [] == lines + [blank] && lines + [] == lines;
    assert (spaced + [head])[..|spaced|] == spaced;
    NamesWithout(spaced + [head], pair, []);
    assert spaced + [head] + [pair] + [] == spaced + [head] + [pair] && spaced + [head] + [] == spaced + [head];
  }

  // ---- deleting a section ------------------------------------------------------------------

  function Except(names: seq<string>, sec: string): seq<string>
  {
    if names == [] then []
    else
      var front, last := Except(names[..|names| - 1], sec), names[|names| - 1];
      if SameName(last, sec) then front else front + [last]
  }

  /** Whether a section being deleted is still running behind these lines. */
  function Dropping(lines: seq<Line>, sec: string, dropping: bool): bool
  {
    if lines == [] then dropping
    else Dropping(lines[1..], sec, if lines[0].kind.Section? then SameName(lines[0].section, sec) else dropping)
  }

  lemma {:induction false} WithoutSplit(a: seq<Line>, b: seq<Line>, sec: string, dropping: bool)
    ensures WithoutSection(a + b, sec, dropping)
            == WithoutSection(a, sec, dropping) + WithoutSection(b, sec, Dropping(a, sec, dropping))
  {
    hide SameName;
    if a == [] {
      assert a + b == b;
    } else {
      var d := if a[0].kind.Section? then SameName(a[0].section, sec) else dropping;
      assert (a + b)[1..] == a[1..] + b;
      WithoutSplit(a[1..], b, sec, d);
      OneDropped(a + b, sec, dropping, d);
      OneDropped(a, sec, dropping, d);
    }
  }

  lemma {:induction false} NamedExcept(names: seq<string>, sec: string, name: string)
    ensures Named(Except(names, sec), name) <==> Named(names, name) && !SameName(sec, name)
  {
    if names != [] {
      var front, last := names[..|names| - 1], names[|names| - 1];
      NamedExcept(front, sec, name);
      assert names == front + [last];
      NamedKeeps(front, last, name);
      NamedKeeps(Except(front, sec), last, name);
      SameNameThrough(last, sec, name);
      SameNameThrough(last, name, sec);
      SameNameThrough(sec, name, last);
      hide SameName, Named;
    }
  }

  lemma OneWithout(line: Line, sec: string, dropping: bool)
    ensures var d := if line.kind.Section? then SameName(line.section, sec) else dropping;
            WithoutSection([line], sec, dropping) == if d then [] else [line]
  {
    assert [line][1..] == [];
  }

  /** del_section takes its name off the list and leaves the others in their order. */
  lemma {:induction false} NamesWithoutSection(lines: seq<Line>, sec: string)
    ensures SectionNames(WithoutSection(lines, sec, false)) == Except(SectionNames(lines), sec)
  {
    if lines == [] {
      return;
    }
    hide *;
    var front, last := lines[..|lines| - 1], lines[|lines| - 1];
    assert lines == front + [last];
    NamesWithoutSection(front, sec);
    WithoutSplit(front, [last], sec, false);
    OneWithout(last, sec, Dropping(front, sec, false));
    NamesMore(front, WithoutSection(front, sec, false), last, sec);
    assert WithoutSection(front, sec, false) + [] == WithoutSection(front, sec, false);
  }

  lemma NamesMore(front: seq<Line>, kept: seq<Line>, last: Line, sec: string)
    requires SectionNames(kept) == Except(SectionNames(front), sec)
    ensures var names := Except(SectionNames(front + [last]), sec);
            if last.kind.Section? && SameName(last.section, sec) then SectionNames(kept) == names
            else SectionNames(kept + [last]) == names && (!last.kind.Section? ==> SectionNames(kept) == names)
  {
    NamesOfLast(kept, last);
    NamesOfLast(front, last);
    if last.kind.Section? {
      NamedExcept(SectionNames(front), sec, last.section);
      SameNameThrough(sec, last.section, sec);
      ExceptLast(SectionNames(front), last.section, sec);
    }
    hide SameName, Named, SectionNames, Except;
  }

  lemma NamesOfLast(lines: seq<Line>, line: Line)
    ensures var names := SectionNames(lines);
            SectionNames(lines + [line]) == if line.kind.Section? && !Named(names, line.section) then names + [line.section] else names
  {
    assert (lines + [line])[..|lines|] == lines;
    hide Named;
  }

  lemma ExceptLast(names: seq<string>, last: string, sec: string)
    ensures Except(names + [last], sec) == if SameName(last, sec) then Except(names, sec) else Except(names, sec) + [last]
  {
    assert (names + [last])[..|names|] == names;
    hide SameName;
  }

  // ---- saving and loading ------------------------------------------------------------------

  /** Two lists of lines that differ at most in their texts and in the letter case of
      the sections their pairs are under. */
  predicate SameHeaders(a: seq<Line>, b: seq<Line>)
  {
    |a| == |b| && forall i :: 0 <= i < |a| ==>
      a[i].kind.Section? == b[i].kind.Section? && (a[i].kind.Section? ==> a[i].section == b[i].section)
  }

  lemma SameHeadersMore(read: Line, rest: seq<Line>, lines: seq<Line>)
    requires lines != [] && SameHeaders(rest, lines[1..])
    requires read.kind.Section? == lines[0].kind.Section? && (read.kind.Section? ==> read.section == lines[0].section)
    ensures SameHeaders([read] + rest, lines)
  {
  }

  lemma {:induction false} ReloadedHeaders(lines: seq<Line>, cur: string, cur': string)
    requires Consistent(lines, cur)
    ensures SameHeaders(ParseLines(IniDocs.Texts(lines), cur'), lines)
  {
    if lines != [] {
      var read := ParseLine(DropCr(lines[0].text), cur');
      DropCrTrims(lines[0].text, cur');
      assert read.kind == lines[0].kind && (read.kind.Section? ==> read.section == lines[0].section);
      hide LineOk, ParseLine, DropCr, SameHeaders;
      var rest := ParseLines(IniDocs.Texts(lines[1..]), Next(read, cur'));
      ReloadedHeaders(lines[1..], Next(lines[0], cur), Next(read, cur'));
      assert ParseLines(IniDocs.Texts(lines), cur') == [read] + rest;
      SameHeadersMore(read, rest, lines);
    }
  }

  /** Saving a consistent document and loading it again changes no section name. */
  lemma SaveThenNames(lines: seq<Line>)
    requires Consistent(lines, "")
    ensures SectionNames(Loaded(Saved(lines))) == SectionNames(lines)
  {
    ConsistentTexts(lines, "");
    SavedLines(lines);
    ReloadedHeaders(lines, "", "");
    NamesByHeaders(Loaded(Saved(lines)), lines);
  }
}
