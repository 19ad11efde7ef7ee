/** The line-preserving INI document (src/platform/ini_doc.h). Text is what the file
    decodes to; lines end at '\n'. */
module IniDocs {
  import opened Text

  datatype Kind = Other | Section | KeyValue

  datatype Line = Line(kind: Kind, text: string, section: string, key: string, value: string)

  // ---- names up to ASCII case ---------------------------------------------------------

  function LowerChar(c: char): char
  {
    if 'A' <= c <= 'Z' then c - 'A' + 'a' else c
  }

  predicate SameName(a: string, b: string)
  {
    |a| == |b| && forall i :: 0 <= i < |a| ==> LowerChar(a[i]) == LowerChar(b[i])
  }

  method IniIEquals(a: string, b: string) returns (same: bool)
    ensures same == SameName(a, b)
  {
    if |a| != |b| {
      return false;
    }
    for i := 0 to |a|
      invariant forall j :: 0 <= j < i ==> LowerChar(a[j]) == LowerChar(b[j])
    {
      var ca, cb := a[i], b[i];
      if 'A' <= ca <= 'Z' {
        ca := ca - 'A' + 'a';
      }
      if 'A' <= cb <= 'Z' {
        cb := cb - 'A' + 'a';
      }
      if ca != cb {
        return false;
      }
    }
    return true;
  }

  lemma SameNameJoins(a: string, b: string, c: string)
    requires SameName(a, b)
    ensures SameName(b, a) && SameName(a, a) && (SameName(a, c) <==> SameName(b, c))
  {
  }

  lemma SameNameThrough(a: string, b: string, c: string)
    ensures SameName(a, b) ==> (SameName(c, a) <==> SameName(c, b)) && (SameName(a, c) <==> SameName(b, c))
    ensures SameName(a, b) <==> SameName(b, a)
  {
  }

  // ---- one line --------------------------------------------------------------------------

  function IndexOf(s: string, c: char): (n: nat)
    ensures n <= |s| && (n < |s| ==> s[n] == c) && forall i :: 0 <= i < n ==> s[i] != c
  {
    if s == [] || s[0] == c then 0 else 1 + IndexOf(s[1..], c)
  }

  predicate Bracketed(t: string)
  {
    t != [] && t[0] == '[' && t[|t| - 1] == ']'
  }

  predicate Comment(t: string)
  {
    t != [] && (t[0] == ';' || t[0] == '#')
  }

  /** A raw line under the section that runs there. */
  function ParseLine(raw: string, cur: string): Line
  {
    var t := Trim(raw);
    if Bracketed(t) then Line(Section, raw, t[1..|t| - 1], "", "")
    else if t != [] && !Comment(t) && IndexOf(t, '=') < |t| then
      var eq := IndexOf(t, '=');
      Line(KeyValue, raw, cur, Trim(t[..eq]), Trim(t[eq + 1..]))
    else Line(Other, raw, "", "", "")
  }

  function Next(line: Line, cur: string): string
  {
    if line.kind.Section? then line.section else cur
  }

  /** A line is the parse of its own text, its section up to ASCII case. */
  predicate LineOk(line: Line, cur: string)
  {
    var p := ParseLine(line.text, cur);
    && '\n' !in line.text
    && line.kind == p.kind && line.key == p.key && line.value == p.value
    && (line.kind.Section? ==> line.section == p.section)
    && (line.kind.KeyValue? ==> SameName(line.section, cur))
  }

  predicate Consistent(lines: seq<Line>, cur: string)
  {
    lines != [] ==> LineOk(lines[0], cur) && Consistent(lines[1..], Next(lines[0], cur))
  }

  function Running(lines: seq<Line>, cur: string): string
  {
    if lines == [] then cur else Running(lines[1..], Next(lines[0], cur))
  }

  lemma {:induction false} ConsistentSplit(a: seq<Line>, b: seq<Line>, cur: string)
    ensures Consistent(a + b, cur) <==> Consistent(a, cur) && Consistent(b, Running(a, cur))
    ensures Running(a + b, cur) == Running(b, Running(a, cur))
  {
    hide LineOk;
    if a == [] {
      assert a + b == b;
    } else {
      assert (a + b)[1..] == a[1..] + b;
      ConsistentSplit(a[1..], b, Next(a[0], cur));
    }
  }

  lemma {:induction false} ConsistentUpToCase(lines: seq<Line>, c: string, d: string)
    requires SameName(c, d)
    ensures Consistent(lines, c) <==> Consistent(lines, d)
    ensures SameName(Running(lines, c), Running(lines, d))
  {
    if lines != [] {
      LineUpToCase(lines[0], c, d);
      SameNameJoins(c, d, c);
      hide LineOk, SameName;
      if lines[0].kind.Section? {
        SameNameRefl(Running(lines[1..], lines[0].section));
      } else {
        ConsistentUpToCase(lines[1..], c, d);
      }
    }
  }

  lemma SameNameRefl(a: string)
    ensures SameName(a, a)
  {
  }

  lemma LineUpToCase(line: Line, c: string, d: string)
    requires SameName(c, d)
    ensures LineOk(line, c) <==> LineOk(line, d)
  {
    SameNameJoins(c, d, line.section);
    SameNameJoins(d, c, line.section);
    if SameName(line.section, c) {
      SameNameJoins(line.section, c, d);
    }
    if SameName(line.section, d) {
      SameNameJoins(line.section, d, c);
    }
    hide SameName;
  }

  // ---- loading and saving ---------------------------------------------------------------------

  /** The lines of a text, as getline gives them, a final '\r' of each dropped. */
  function RawLines(text: string): seq<string>
    decreases |text|
  {
    if text == [] then []
    else
      var n := IndexOf(text, '\n');
      [DropCr(text[..n])] + (if n < |text| then RawLines(text[n + 1..]) else [])
  }

  function DropCr(raw: string): string
  {
    if raw != [] && raw[|raw| - 1] == '\r' then raw[..|raw| - 1] else raw
  }

  function ParseLines(raws: seq<string>, cur: string): seq<Line>
  {
    if raws == [] then []
    else
      var line := ParseLine(raws[0], cur);
      [line] + ParseLines(raws[1..], Next(line, cur))
  }

  function Loaded(text: string): seq<Line>
  {
    ParseLines(RawLines(text), "")
  }

  function Saved(lines: seq<Line>): string
  {
    if lines == [] then [] else lines[0].text + ['\n'] + Saved(lines[1..])
  }

  lemma {:induction false} RawLinesHaveNoBreaks(text: string)
    ensures forall i :: 0 <= i < |RawLines(text)| ==> '\n' !in RawLines(text)[i]
    decreases |text|
  {
    if text != [] {
      var n := IndexOf(text, '\n');
      assert '\n' !in DropCr(text[..n]);
      hide DropCr;
      if n < |text| {
        RawLinesHaveNoBreaks(text[n + 1..]);
      }
    }
  }

  lemma {:induction false} ParsedIsConsistent(raws: seq<string>, cur: string)
    requires forall i :: 0 <= i < |raws| ==> '\n' !in raws[i]
    ensures Consistent(ParseLines(raws, cur), cur)
  {
    if raws != [] {
      var line := ParseLine(raws[0], cur);
      SameNameRefl(cur);
      ParsedIsConsistent(raws[1..], Next(line, cur));
      assert ParseLines(raws, cur)[1..] == ParseLines(raws[1..], Next(line, cur));
    }
  }

  /** Loading makes every line the parse of its own text under the running section. */
  lemma LoadedIsConsistent(text: string)
    ensures Consistent(Loaded(text), "")
  {
    RawLinesHaveNoBreaks(text);
    ParsedIsConsistent(RawLines(text), "");
  }

  // ---- reading ----------------------------------------------------------------------------------

  predicate Holds(line: Line, sec: string, key: string)
  {
    line.kind.KeyValue? && SameName(line.section, sec) && SameName(line.key, key)
  }

  /** The value read for a pair: that of the first line that holds it. */
  function Get(lines: seq<Line>, sec: string, key: string, def: string): string
  {
    if lines == [] then def
    else if Holds(lines[0], sec, key) then lines[0].value
    else Get(lines[1..], sec, key, def)
  }

  function Has(lines: seq<Line>, sec: string, key: string): bool
  {
    lines != [] && (Holds(lines[0], sec, key) || Has(lines[1..], sec, key))
  }

  lemma {:induction false} GetSplit(a: seq<Line>, b: seq<Line>, sec: string, key: string, def: string)
    ensures Get(a + b, sec, key, def) == Get(a, sec, key, Get(b, sec, key, def))
    ensures Has(a + b, sec, key) <==> Has(a, sec, key) || Has(b, sec, key)
  {
    hide Holds;
    if a == [] {
      assert a + b == b;
    } else {
      assert (a + b)[1..] == a[1..] + b;
      GetSplit(a[1..], b, sec, key, def);
    }
  }

  // ---- editing ----------------------------------------------------------------------------------

  function Pair(sec: string, key: string, val: string): Line
  {
    Line(KeyValue, key + "=" + val, sec, key, val)
  }

  function Rewritten(line: Line, val: string): Line
  {
    line.(value := val, text := line.key + "=" + val)
  }

  /** The index of the last header of a section, or the number of lines. */
  function LastHeader(lines: seq<Line>, sec: string): (n: nat)
    ensures n <= |lines|
    ensures n < |lines| ==> lines[n].kind.Section? && SameName(lines[n].section, sec)
  {
    if lines == [] then 0
    else
      var n := LastHeader(lines[1..], sec);
      if n < |lines| - 1 then n + 1
      else if lines[0].kind.Section? && SameName(lines[0].section, sec) then 0
      else |lines|
  }

  /** The number of lines before the first header. */
  function BodyLength(lines: seq<Line>): (n: nat)
    ensures n <= |lines| && forall i :: 0 <= i < n ==> !lines[i].kind.Section?
    ensures n < |lines| ==> lines[n].kind.Section?
  {
    if lines == [] || lines[0].kind.Section? then 0 else 1 + BodyLength(lines[1..])
  }

  /** A new section at the end, behind an empty line unless there is one. */
  function NewSection(lines: seq<Line>, sec: string): seq<Line>
  {
    var spaced := if lines != [] && lines[|lines| - 1].text != [] then lines + [Line(Other, "", "", "", "")] else lines;
    spaced + [Line(Section, "[" + sec + "]", sec, "", "")]
  }

  function Inserted(lines: seq<Line>, sec: string, key: string, val: string): seq<Line>
  {
    var h := LastHeader(lines, sec);
    if h == |lines| then NewSection(lines, sec) + [Pair(sec, key, val)]
    else
      var at := h + 1 + BodyLength(lines[h + 1..]);
      lines[..at] + [Pair(sec, key, val)] + lines[at..]
  }

  function Replaced(lines: seq<Line>, sec: string, key: string, val: string): seq<Line>
  {
    if lines == [] then []
    else if Holds(lines[0], sec, key) then [Rewritten(lines[0], val)] + lines[1..]
    else [lines[0]] + Replaced(lines[1..], sec, key, val)
  }

  function Set(lines: seq<Line>, sec: string, key: string, val: string): seq<Line>
  {
    if Has(lines, sec, key) then Replaced(lines, sec, key, val) else Inserted(lines, sec, key, val)
  }

  /** The section names in order of first appearance. */
  function SectionNames(lines: seq<Line>): seq<string>
  {
    if lines == [] then []
    else
      var names := SectionNames(lines[..|lines| - 1]);
      var line := lines[|lines| - 1];
      if line.kind.Section? && !Named(names, line.section) then names + [line.section] else names
  }

  function WithoutKey(lines: seq<Line>, sec: string, key: string): seq<Line>
  {
    if lines == [] then []
    else if Holds(lines[0], sec, key) then WithoutKey(lines[1..], sec, key)
    else [lines[0]] + WithoutKey(lines[1..], sec, key)
  }

  function WithoutSection(lines: seq<Line>, sec: string, dropping: bool): seq<Line>
  {
    if lines == [] then []
    else
      var d := if lines[0].kind.Section? then SameName(lines[0].section, sec) else dropping;
      (if d then [] else [lines[0]]) + WithoutSection(lines[1..], sec, d)
  }

  // ---- which pairs survive as text ------------------------------------------------------------

  /** Free of line breaks and edge blanks, and of anything that reads as a comment, a
      second equals sign in the key, or a header. */
  predicate Storable(key: string, val: string)
  {
    && '\n' !in key && '\n' !in val && Tight(key) && Tight(val) && '=' !in key && !Comment(key)
    && !(key != [] && key[0] == '[' && val != [] && val[|val| - 1] == ']')
  }

  lemma TrimKeepsOut(s: string, c: char)
    requires c !in s
    ensures c !in Trim(s)
  {
    var w := TrimLeftParts(s);
    var v := TrimRightParts(TrimLeft(s));
    var t, u := TrimLeft(s), Trim(s);
    assert s == w + t && t == u + v;
    hide TrimLeft, Trim;
    assert forall i :: 0 <= i < |u| ==> u[i] == t[i] == s[|w| + i];
  }

  lemma PairText(key: string, val: string)
    requires Tight(key) && Tight(val)
    ensures var t := key + "=" + val;
            && Tight(t) && Trim(t) == t
            && (Comment(t) <==> Comment(key))
            && (Bracketed(t) <==> key != [] && key[0] == '[' && val != [] && val[|val| - 1] == ']')
            && ('=' !in key ==> IndexOf(t, '=') == |key| && t[..|key|] == key && t[|key| + 1..] == val)
            && IndexOf(t, '=') < |t|
  {
    var t := key + "=" + val;
    TrimTight(t);
    assert t[|key|] == '=';
    var n := IndexOf(t, '=');
    assert n <= |key|;
    assert n < |key| ==> key[n] == '=';
  }

  /** Exactly the storable pairs read back as themselves. */
  lemma PairReadsBackIff(sec: string, key: string, val: string)
    ensures LineOk(Pair(sec, key, val), sec) <==> Storable(key, val)
  {
    SameNameRefl(sec);
    var text := key + "=" + val;
    if Storable(key, val) {
      PairText(key, val);
      TrimTight(key);
      TrimTight(val);
    } else if LineOk(Pair(sec, key, val), sec) {
      var t := Trim(text);
      var eq := IndexOf(t, '=');
      TrimIsTight(t[..eq]);
      TrimIsTight(t[eq + 1..]);
      TrimKeepsOut(t[..eq], '=');
      assert key == Trim(t[..eq]) && val == Trim(t[eq + 1..]);
      NoBreaks(key, val);
      PairText(key, val);
      assert false;
    }
  }

  lemma NoBreaks(key: string, val: string)
    ensures '\n' !in key + "=" + val ==> '\n' !in key && '\n' !in val
  {
    var t := key + "=" + val;
    assert forall i :: 0 <= i < |key| ==> t[i] == key[i];
    assert forall i :: 0 <= i < |val| ==> t[|key| + 1 + i] == val[i];
  }

  /** A line that is the parse of its text stays so with another storable value. */
  lemma RewrittenOk(line: Line, cur: string, key: string, val: string)
    requires LineOk(line, cur) && line.kind.KeyValue? && SameName(line.key, key) && Storable(key, val)
    ensures LineOk(Rewritten(line, val), cur)
  {
    var t := Trim(line.text);
    var eq := IndexOf(t, '=');
    assert line.key == Trim(t[..eq]);
    TrimIsTight(line.text);
    TrimIsTight(t[..eq]);
    TrimKeepsOut(t[..eq], '=');
    TrimKeepsOut(line.text, '\n');
    TrimKeepsOut(t[..eq], '\n');
    KeyIsNoComment(t, eq);
    assert Storable(line.key, val) by { assert line.key != [] ==> LowerChar(line.key[0]) == LowerChar(key[0]); }
    PairReadsBackIff(line.section, line.key, val);
    hide Storable, Trim, Tight, IndexOf;
    LineUpToCase(Pair(line.section, line.key, val), line.section, cur);
  }

  lemma KeyIsNoComment(t: string, eq: nat)
    requires eq <= |t| && Tight(t) && !Comment(t)
    ensures !Comment(Trim(t[..eq]))
  {
    var u := t[..eq];
    if u != [] {
      assert TrimLeft(u) == u;
      var w := TrimRightParts(u);
      assert Trim(u) != [] ==> Trim(u)[0] == u[0] == t[0];
    }
  }

  // ---- edits keep the document consistent ---------------------------------------------------------

  lemma {:induction false} ReplacedKeeps(lines: seq<Line>, cur: string, sec: string, key: string, val: string)
    requires Consistent(lines, cur) && Storable(key, val)
    ensures Consistent(Replaced(lines, sec, key, val), cur)
  {
    hide LineOk, Storable;
    if lines != [] {
      if Holds(lines[0], sec, key) {
        RewrittenOk(lines[0], cur, key, val);
        assert Next(Rewritten(lines[0], val), cur) == cur;
        assert ([Rewritten(lines[0], val)] + lines[1..])[1..] == lines[1..];
      } else {
        ReplacedKeeps(lines[1..], Next(lines[0], cur), sec, key, val);
        assert Replaced(lines, sec, key, val)[1..] == Replaced(lines[1..], sec, key, val);
      }
    }
  }

  lemma HeaderOk(sec: string, cur: string)
    requires '\n' !in sec
    ensures LineOk(Line(Section, "[" + sec + "]", sec, "", ""), cur)
  {
    var t := "[" + sec + "]";
    TrimTight(t);
    assert t[1..|t| - 1] == sec;
  }

  lemma BlankOk(cur: string)
    ensures LineOk(Line(Other, "", "", "", ""), cur)
  {
    TrimTight("");
  }

  lemma OneLine(line: Line, cur: string)
    requires LineOk(line, cur)
    ensures Consistent([line], cur) && Running([line], cur) == Next(line, cur)
  {
    hide LineOk;
  }

  lemma NewSectionKeeps(lines: seq<Line>, sec: string)
    requires Consistent(lines, "") && '\n' !in sec
    ensures Consistent(NewSection(lines, sec), "") && Running(NewSection(lines, sec), "") == sec
  {
    var blank := Line(Other, "", "", "", "");
    var head := Line(Section, "[" + sec + "]", sec, "", "");
    var spaced := if lines != [] && lines[|lines| - 1].text != [] then lines + [blank] else lines;
    BlankOk(Running(lines, ""));
    OneLine(blank, Running(lines, ""));
    ConsistentSplit(lines, [blank], "");
    HeaderOk(sec, Running(spaced, ""));
    OneLine(head, Running(spaced, ""));
    ConsistentSplit(spaced, [head], "");
    hide LineOk, Consistent, Running;
  }

  lemma {:induction false} BodyRuns(lines: seq<Line>, n: nat, cur: string)
    requires n <= |lines| && forall i :: 0 <= i < n ==> !lines[i].kind.Section?
    ensures Running(lines[..n], cur) == cur
  {
    if n > 0 {
      BodyRuns(lines[1..], n - 1, cur);
      assert lines[..n][1..] == lines[1..][..n - 1];
    }
  }

  lemma InsertedKeeps(lines: seq<Line>, sec: string, key: string, val: string)
    requires Consistent(lines, "") && Storable(key, val) && '\n' !in sec
    ensures Consistent(Inserted(lines, sec, key, val), "")
  {
    hide Storable, LineOk, Consistent, Running, LastHeader, BodyLength, NewSection, SameName;
    var h := LastHeader(lines, sec);
    var pair := Pair(sec, key, val);
    PairReadsBackIff(sec, key, val);
    if h == |lines| {
      NewSectionKeeps(lines, sec);
      OneLine(pair, sec);
      ConsistentSplit(NewSection(lines, sec), [pair], "");
    } else {
      InsertionRuns(lines, h, BodyLength(lines[h + 1..]));
      SameNameJoins(lines[h].section, sec, sec);
      InsertedInside(lines, h + 1 + BodyLength(lines[h + 1..]), pair, lines[h].section, sec);
    }
  }

  lemma InsertedInside(lines: seq<Line>, at: nat, pair: Line, cur: string, sec: string)
    requires at <= |lines| && Consistent(lines, "") && Running(lines[..at], "") == cur
    requires pair.kind.KeyValue? && LineOk(pair, sec) && SameName(sec, cur)
    ensures Consistent(lines[..at] + [pair] + lines[at..], "")
  {
    hide LineOk, Consistent, Running, SameName;
    assert lines == lines[..at] + lines[at..];
    ConsistentSplit(lines[..at], lines[at..], "");
    LineUpToCase(pair, sec, cur);
    OneLine(pair, cur);
    ConsistentSplit(lines[..at], [pair], "");
    ConsistentSplit(lines[..at] + [pair], lines[at..], "");
  }

  lemma InsertionRuns(lines: seq<Line>, h: nat, n: nat)
    requires h < |lines| && lines[h].kind.Section? && n == BodyLength(lines[h + 1..])
    ensures h + 1 + n <= |lines| && Running(lines[..h + 1 + n], "") == lines[h].section
  {
    var body := lines[h + 1..];
    assert lines[..h + 1 + n] == lines[..h] + ([lines[h]] + body[..n]);
    ConsistentSplit(lines[..h], [lines[h]] + body[..n], "");
    assert ([lines[h]] + body[..n])[1..] == body[..n];
    BodyRuns(body, n, lines[h].section);
  }

  /** set keeps every line the parse of its own text. */
  lemma SetKeeps(lines: seq<Line>, sec: string, key: string, val: string)
    requires Consistent(lines, "") && Storable(key, val) && '\n' !in sec
    ensures Consistent(Set(lines, sec, key, val), "")
  {
    if Has(lines, sec, key) {
      ReplacedKeeps(lines, "", sec, key, val);
    } else {
      InsertedKeeps(lines, sec, key, val);
    }
  }

  lemma {:induction false} DelKeyKeeps(lines: seq<Line>, cur: string, sec: string, key: string)
    requires Consistent(lines, cur)
    ensures Consistent(WithoutKey(lines, sec, key), cur)
  {
    hide LineOk;
    if lines != [] {
      DelKeyKeeps(lines[1..], Next(lines[0], cur), sec, key);
      if !Holds(lines[0], sec, key) {
        assert WithoutKey(lines, sec, key)[1..] == WithoutKey(lines[1..], sec, key);
      }
    }
  }

  lemma SectionLineOk(line: Line, c: string, d: string)
    requires LineOk(line, c) && line.kind.Section?
    ensures LineOk(line, d)
  {
  }

  lemma OneDropped(lines: seq<Line>, sec: string, dropping: bool, d: bool)
    requires lines != [] && d == (if lines[0].kind.Section? then SameName(lines[0].section, sec) else dropping)
    ensures var rest := WithoutSection(lines[1..], sec, d);
            if d then WithoutSection(lines, sec, dropping) == rest
            else WithoutSection(lines, sec, dropping) == [lines[0]] + rest && ([lines[0]] + rest)[1..] == rest
  {
  }

  lemma {:induction false} DelSectionKeeps(lines: seq<Line>, cur: string, sec: string, dropping: bool, out: string)
    requires Consistent(lines, cur) && (dropping || out == cur)
    ensures Consistent(WithoutSection(lines, sec, dropping), out)
  {
    hide LineOk;
    if lines != [] {
      var d := if lines[0].kind.Section? then SameName(lines[0].section, sec) else dropping;
      if lines[0].kind.Section? {
        SectionLineOk(lines[0], cur, out);
      }
      DelSectionKeeps(lines[1..], Next(lines[0], cur), sec, d, if d then out else Next(lines[0], out));
      OneDropped(lines, sec, dropping, d);
    }
  }

  // ---- what is read after an edit -----------------------------------------------------------------

  predicate SamePair(sec: string, key: string, sec': string, key': string)
  {
    SameName(sec, sec') && SameName(key, key')
  }

  lemma HoldsJoins(line: Line, sec: string, key: string, sec': string, key': string)
    ensures Holds(line, sec, key) ==> (Holds(line, sec', key') <==> SamePair(sec, key, sec', key'))
    ensures SamePair(sec, key, sec', key') ==> (Holds(line, sec, key) <==> Holds(line, sec', key'))
  {
    SameNameThrough(line.section, sec, sec');
    SameNameThrough(line.key, key, key');
    SameNameThrough(sec, sec', line.section);
    SameNameThrough(key, key', line.key);
    hide SameName;
  }

  lemma {:induction false} GetAfterReplaced(lines: seq<Line>, sec: string, key: string, val: string, sec': string, key': string, def: string)
    requires Has(lines, sec, key)
    ensures Get(Replaced(lines, sec, key, val), sec', key', def) ==
              if SamePair(sec, key, sec', key') then val else Get(lines, sec', key', def)
  {
    var line := lines[0];
    HoldsJoins(line, sec, key, sec', key');
    if Holds(line, sec, key) {
      assert Holds(Rewritten(line, val), sec', key') <==> Holds(line, sec', key');
      assert ([Rewritten(line, val)] + lines[1..])[1..] == lines[1..];
    } else {
      GetAfterReplaced(lines[1..], sec, key, val, sec', key', def);
      assert Replaced(lines, sec, key, val)[1..] == Replaced(lines[1..], sec, key, val);
    }
  }

  lemma {:induction false} GetOfOther(lines: seq<Line>, sec: string, key: string, def: string)
    requires !Has(lines, sec, key)
    ensures Get(lines, sec, key, def) == def
  {
    if lines != [] {
      GetOfOther(lines[1..], sec, key, def);
    }
  }

  lemma {:induction false} HasSame(lines: seq<Line>, sec: string, key: string, sec': string, key': string)
    requires SamePair(sec, key, sec', key')
    ensures Has(lines, sec, key) <==> Has(lines, sec', key')
  {
    if lines != [] {
      HoldsJoins(lines[0], sec, key, sec', key');
      HasSame(lines[1..], sec, key, sec', key');
    }
  }

  lemma PairHolds(sec: string, key: string, val: string, sec': string, key': string, def: string)
    ensures Get([Pair(sec, key, val)], sec', key', def) == if SamePair(sec, key, sec', key') then val else def
  {
    assert [Pair(sec, key, val)][1..] == [];
  }

  lemma NewSectionReads(lines: seq<Line>, sec: string, sec': string, key': string, def: string)
    ensures Get(NewSection(lines, sec), sec', key', def) == Get(lines, sec', key', def)
  {
    var blank := Line(Other, "", "", "", "");
    var head := Line(Section, "[" + sec + "]", sec, "", "");
    var spaced := if lines != [] && lines[|lines| - 1].text != [] then lines + [blank] else lines;
    GetSplit(lines, [blank], sec', key', def);
    GetSplit(spaced, [head], sec', key', def);
    assert [head][1..] == [] && [blank][1..] == [];
  }

  lemma GetAfterInserted(lines: seq<Line>, sec: string, key: string, val: string, sec': string, key': string, def: string)
    requires !Has(lines, sec, key)
    ensures Get(Inserted(lines, sec, key, val), sec', key', def) ==
              if SamePair(sec, key, sec', key') then val else Get(lines, sec', key', def)
  {
    var pair := Pair(sec, key, val);
    if SamePair(sec, key, sec', key') {
      HasSame(lines, sec, key, sec', key');
    }
    PairHolds(sec, key, val, sec', key', def);
    var h := LastHeader(lines, sec);
    if h == |lines| {
      NewSectionReads(lines, sec, sec', key', if SamePair(sec, key, sec', key') then val else def);
      GetSplit(NewSection(lines, sec), [pair], sec', key', def);
      if SamePair(sec, key, sec', key') {
        GetOfOther(lines, sec', key', val);
      }
    } else {
      GetAround(lines, h + 1 + BodyLength(lines[h + 1..]), sec, key, val, sec', key', def);
    }
  }

  lemma GetAround(lines: seq<Line>, at: nat, sec: string, key: string, val: string, sec': string, key': string, def: string)
    requires at <= |lines| && (SamePair(sec, key, sec', key') ==> !Has(lines, sec', key'))
    ensures Get(lines[..at] + [Pair(sec, key, val)] + lines[at..], sec', key', def) ==
              if SamePair(sec, key, sec', key') then val else Get(lines, sec', key', def)
  {
    var a, b, pair := lines[..at], lines[at..], Pair(sec, key, val);
    assert lines == a + b;
    GetSplit(a, b, sec', key', def);
    GetSplit(a + [pair], b, sec', key', def);
    var rest := Get(b, sec', key', def);
    GetSplit(a, [pair], sec', key', rest);
    PairHolds(sec, key, val, sec', key', rest);
    if SamePair(sec, key, sec', key') {
      GetOfOther(a, sec', key', val);
    }
  }

  /** After set the pair, in any letter case, reads as the value; every other pair reads
      as before. */
  lemma GetAfterSet(lines: seq<Line>, sec: string, key: string, val: string, sec': string, key': string, def: string)
    ensures Get(Set(lines, sec, key, val), sec', key', def) ==
              if SamePair(sec, key, sec', key') then val else Get(lines, sec', key', def)
  {
    if Has(lines, sec, key) {
      GetAfterReplaced(lines, sec, key, val, sec', key', def);
    } else {
      GetAfterInserted(lines, sec, key, val, sec', key', def);
    }
  }

  lemma {:induction false} GetAfterDelKey(lines: seq<Line>, sec: string, key: string, sec': string, key': string, def: string)
    ensures Get(WithoutKey(lines, sec, key), sec', key', def) ==
              if SamePair(sec, key, sec', key') then def else Get(lines, sec', key', def)
  {
    if lines != [] {
      HoldsJoins(lines[0], sec, key, sec', key');
      GetAfterDelKey(lines[1..], sec, key, sec', key', def);
      hide Holds;
      if !Holds(lines[0], sec, key) {
        assert WithoutKey(lines, sec, key)[1..] == WithoutKey(lines[1..], sec, key);
      }
    }
  }

  lemma {:induction false} GetWhileDropping(lines: seq<Line>, cur: string, sec: string, dropping: bool, sec': string, key': string, def: string)
    requires Consistent(lines, cur) && dropping == SameName(cur, sec)
    ensures Get(WithoutSection(lines, sec, dropping), sec', key', def) ==
              if SameName(sec, sec') then def else Get(lines, sec', key', def)
  {
    if lines != [] {
      var line := lines[0];
      var d := if line.kind.Section? then SameName(line.section, sec) else dropping;
      DroppedHolds(line, cur, sec, sec', key');
      GetWhileDropping(lines[1..], Next(line, cur), sec, d, sec', key', def);
      hide Holds, SameName, LineOk;
      OneDropped(lines, sec, dropping, d);
    }
  }

  lemma DroppedHolds(line: Line, cur: string, sec: string, sec': string, key': string)
    requires LineOk(line, cur)
    ensures Holds(line, sec', key') ==> !line.kind.Section? && (SameName(cur, sec) <==> SameName(sec, sec'))
  {
    SameNameThrough(line.section, cur, sec);
    SameNameThrough(line.section, sec', sec);
    SameNameThrough(sec, sec', sec);
    hide SameName;
  }

  /** After del_section the section reads as its defaults, but for lines before the
      first header when the section has no name; every other section reads as before. */
  lemma GetAfterDelSection(lines: seq<Line>, sec: string, sec': string, key': string, def: string)
    requires Consistent(lines, "")
    ensures Get(WithoutSection(lines, sec, false), sec', key', def) ==
              if SameName(sec, sec') then (if sec == "" then Get(lines[..BodyLength(lines)], sec', key', def) else def)
              else Get(lines, sec', key', def)
  {
    if sec != "" {
      GetWhileDropping(lines, "", sec, false, sec', key', def);
    } else {
      var n := BodyLength(lines);
      BodyStays(lines, sec);
      assert lines == lines[..n] + lines[n..];
      var rest := WithoutSection(lines[n..], sec, true);
      GetSplit(lines[..n], lines[n..], sec', key', def);
      GetSplit(lines[..n], rest, sec', key', def);
      ConsistentSplit(lines[..n], lines[n..], "");
      BodyRuns(lines, n, "");
      GetWhileDropping(lines[n..], "", sec, true, sec', key', def);
    }
  }

  lemma {:induction false} BodyStays(lines: seq<Line>, sec: string)
    ensures var n := BodyLength(lines);
            WithoutSection(lines, sec, false) == lines[..n] + WithoutSection(lines[n..], sec, true)
  {
    if lines == [] || lines[0].kind.Section? {
      assert lines[..0] == [] && lines[0..] == lines;
    } else {
      BodyStays(lines[1..], sec);
      var n := BodyLength(lines[1..]);
      assert lines[..n + 1] == [lines[0]] + lines[1..][..n] && lines[n + 1..] == lines[1..][n..];
    }
  }

  // ---- save, then load -----------------------------------------------------------------------------

  function Texts(lines: seq<Line>): seq<string>
  {
    if lines == [] then [] else [DropCr(lines[0].text)] + Texts(lines[1..])
  }

  predicate EachOneLine(lines: seq<Line>)
  {
    forall i :: 0 <= i < |lines| ==> '\n' !in lines[i].text
  }

  lemma {:induction false} ConsistentTexts(lines: seq<Line>, cur: string)
    requires Consistent(lines, cur)
    ensures EachOneLine(lines)
  {
    if lines != [] {
      ConsistentTexts(lines[1..], Next(lines[0], cur));
    }
  }

  lemma {:induction false} SavedLines(lines: seq<Line>)
    requires EachOneLine(lines)
    ensures RawLines(Saved(lines)) == Texts(lines)
  {
    if lines != [] {
      var text, rest := lines[0].text, Saved(lines[1..]);
      SavedLines(lines[1..]);
      FirstBreak(text, rest);
    }
  }

  lemma FirstBreak(text: string, rest: string)
    requires '\n' !in text
    ensures var t := text + ['\n'] + rest;
            IndexOf(t, '\n') == |text| && t[..|text|] == text && t[|text| + 1..] == rest
  {
    var t := text + ['\n'] + rest;
    var n := IndexOf(t, '\n');
    assert t[|text|] == '\n';
    assert n <= |text|;
    assert forall i :: 0 <= i < |text| ==> t[i] == text[i] != '\n';
  }

  lemma DropCrTrims(raw: string, cur: string)
    ensures var p, q := ParseLine(raw, cur), ParseLine(DropCr(raw), cur);
            p == q.(text := raw)
  {
    if raw != [] && raw[|raw| - 1] == '\r' {
      var front := raw[..|raw| - 1];
      assert raw == front + ['\r'];
      TrimSame(front);
    }
    assert Trim(raw) == Trim(DropCr(raw));
    hide Trim, IndexOf, Bracketed, Comment;
  }

  /** Trimming the left after the right or before makes no difference for a blank end. */
  lemma TrimSame(s: string)
    ensures Trim(s + ['\r']) == Trim(s)
  {
    var w := TrimLeftParts(s);
    var core := TrimLeft(s);
    assert s + ['\r'] == w + (core + ['\r']);
    TrimLeftOfBlank(w, core + ['\r']);
    TrimRightOfBlank(core, ['\r']);
    if core == [] {
      assert core + ['\r'] == ['\r'] + [];
      TrimLeftOfBlank(['\r'], []);
    }
  }

  lemma {:induction false} ReloadedReads(lines: seq<Line>, cur: string, cur': string, sec: string, key: string, def: string)
    requires Consistent(lines, cur) && SameName(cur, cur')
    ensures Get(ParseLines(Texts(lines), cur'), sec, key, def) == Get(lines, sec, key, def)
  {
    if lines != [] {
      var line := lines[0];
      var read := ParseLine(DropCr(line.text), cur');
      DropCrTrims(line.text, cur');
      ReadsAlike(line, read, cur, cur', sec, key);
      SameNameRefl(line.section);
      hide LineOk, Holds, SameName, ParseLine;
      ReloadedReads(lines[1..], Next(line, cur), Next(read, cur'), sec, key, def);
      assert ParseLines(Texts(lines), cur') == [read] + ParseLines(Texts(lines[1..]), Next(read, cur'));
      assert ([read] + ParseLines(Texts(lines[1..]), Next(read, cur')))[1..] == ParseLines(Texts(lines[1..]), Next(read, cur'));
    }
  }

  lemma ReadsAlike(line: Line, read: Line, cur: string, cur': string, sec: string, key: string)
    requires LineOk(line, cur) && SameName(cur, cur') && ParseLine(line.text, cur') == read.(text := line.text)
    ensures SameName(Next(line, cur), Next(read, cur'))
    ensures (Holds(line, sec, key) <==> Holds(read, sec, key)) && line.value == read.value
  {
    hide Trim;
  }

  /** Saving a consistent document and loading it again changes no read. */
  lemma SaveThenLoad(lines: seq<Line>, sec: string, key: string, def: string)
    requires Consistent(lines, "")
    ensures Get(Loaded(Saved(lines)), sec, key, def) == Get(lines, sec, key, def)
  {
    ConsistentTexts(lines, "");
    SavedLines(lines);
    SameNameRefl("");
    ReloadedReads(lines, "", "", sec, key, def);
  }

  // ---- the object ------------------------------------------------------------------------------

  class IniDoc {
    var m_lines: seq<Line>

    constructor ()
      ensures m_lines == []
    {
      m_lines := [];
    }

    method Load(text: string)
      modifies this
      ensures m_lines == Loaded(text) && Consistent(m_lines, "")
    {
      hide ParseLine, DropCr, ParseLines, RawLines, IndexOf, Consistent;
      m_lines := [];
      var at: nat := 0;
      var cur := "";
      assert text[0..] == text;
      while at < |text|
        invariant at <= |text|
        invariant Loaded(text) == m_lines + ParseLines(RawLines(text[at..]), cur)
        decreases |text| - at
      {
        var end := FindBreak(text, at);
        LinesFrom(text, at, end, cur);
        var line := ReadLine(text[at..end], cur);
        if line.kind == Section {
          cur := line.section;
        }
        at := if end < |text| then end + 1 else end;
        Shift(m_lines, line, ParseLines(RawLines(text[at..]), cur));
        m_lines := m_lines + [line];
      }
      assert text[|text|..] == [];
      NothingToParse(cur);
      assert m_lines + [] == m_lines;
      LoadedIsConsistent(text);
    }

    /** One iteration of load: drop the carriage return, trim, classify. */
    method ReadLine(raw: string, cur: string) returns (line: Line)
      ensures line == ParseLine(DropCr(raw), cur)
    {
      var text := raw;
      if text != [] && text[|text| - 1] == '\r' {
        text := text[..|text| - 1];
      }
      line := Line(Other, text, "", "", "");
      var trimmed := Trim(text);
      if trimmed != [] && trimmed[0] == '[' && trimmed[|trimmed| - 1] == ']' {
        line := line.(kind := Section, section := trimmed[1..|trimmed| - 1]);
      } else if trimmed != [] && trimmed[0] != ';' && trimmed[0] != '#' {
        var eq := IndexOf(trimmed, '=');
        if eq < |trimmed| {
          line := line.(kind := KeyValue, section := cur, key := Trim(trimmed[..eq]), value := Trim(trimmed[eq + 1..]));
        }
      }
    }

    method FindBreak(text: string, from: nat) returns (n: nat)
      requires from <= |text|
      ensures from <= n <= |text| && n - from == IndexOf(text[from..], '\n')
    {
      n := from;
      while n < |text| && text[n] != '\n'
        invariant from <= n <= |text|
        invariant IndexOf(text[from..], '\n') == n - from + IndexOf(text[n..], '\n')
      {
        assert text[n..][1..] == text[n + 1..];
        n := n + 1;
      }
    }

    method Save() returns (text: string)
      ensures text == Saved(m_lines)
    {
      text := "";
      for i := 0 to |m_lines|
        invariant Saved(m_lines) == text + Saved(m_lines[i..])
      {
        assert m_lines[i..][1..] == m_lines[i + 1..];
        Append(text, m_lines[i].text, Saved(m_lines[i + 1..]));
        text := text + m_lines[i].text;
        text := text + ['\n'];
      }
    }

    /** The section names in order of appearance, each once up to case. */
    method Sections() returns (names: seq<string>)
      ensures names == SectionNames(m_lines)
      ensures forall i, j :: 0 <= i < j < |names| ==> !SameName(names[i], names[j])
      ensures forall i :: 0 <= i < |names| ==> Declared(m_lines, names[i])
      ensures forall k :: 0 <= k < |m_lines| && m_lines[k].kind.Section? ==> Named(names, m_lines[k].section)
    {
      hide SameName, Named, Declared;
      names := [];
      for n := 0 to |m_lines|
        invariant names == SectionNames(m_lines[..n])
        invariant forall i, j :: 0 <= i < j < |names| ==> !SameName(names[i], names[j])
        invariant forall i :: 0 <= i < |names| ==> Declared(m_lines, names[i])
        invariant forall k :: 0 <= k < n && m_lines[k].kind.Section? ==> Named(names, m_lines[k].section)
      {
        var line := m_lines[n];
        assert m_lines[..n + 1][..n] == m_lines[..n];
        if line.kind == Section {
          var dup := Contains(names, line.section);
          if !dup {
            NamedGrows(names, line.section);
            IsDeclared(m_lines, n);
            names := names + [line.section];
          }
        }
      }
      assert m_lines[..|m_lines|] == m_lines;
    }

    method Contains(names: seq<string>, sec: string) returns (dup: bool)
      ensures dup <==> Named(names, sec)
      ensures !dup ==> forall j :: 0 <= j < |names| ==> !SameName(names[j], sec)
    {
      hide SameName;
      for i := 0 to |names|
        invariant forall j :: 0 <= j < i ==> !SameName(names[j], sec)
      {
        var same := IniIEquals(names[i], sec);
        if same {
          return true;
        }
      }
      return false;
    }

    method GetValue(sec: string, key: string, def: string) returns (value: string)
      ensures value == Get(m_lines, sec, key, def)
    {
      for i := 0 to |m_lines|
        invariant Get(m_lines, sec, key, def) == Get(m_lines[i..], sec, key, def)
      {
        assert m_lines[i..][1..] == m_lines[i + 1..];
        var held := IsPair(m_lines[i], sec, key);
        if held {
          return m_lines[i].value;
        }
      }
      return def;
    }

    method IsPair(line: Line, sec: string, key: string) returns (held: bool)
      ensures held == Holds(line, sec, key)
    {
      if line.kind != KeyValue {
        return false;
      }
      var sameSection := IniIEquals(line.section, sec);
      if !sameSection {
        return false;
      }
      held := IniIEquals(line.key, key);
    }

    method SetValue(sec: string, key: string, val: string)
      modifies this
      ensures m_lines == Set(old(m_lines), sec, key, val)
      ensures Consistent(old(m_lines), "") && Storable(key, val) && '\n' !in sec ==> Consistent(m_lines, "")
    {
      if Consistent(m_lines, "") && Storable(key, val) && '\n' !in sec {
        SetKeeps(m_lines, sec, key, val);
      }
      hide Storable, Consistent, Holds, Rewritten;
      assert m_lines[0..] == m_lines && m_lines[..0] == [];
      for i := 0 to |m_lines|
        invariant m_lines == old(m_lines)
        invariant Has(m_lines, sec, key) == Has(m_lines[i..], sec, key)
        invariant Has(m_lines, sec, key) ==>
          Replaced(m_lines, sec, key, val) == m_lines[..i] + Replaced(m_lines[i..], sec, key, val)
      {
        var line := m_lines[i];
        var held := IsPair(line, sec, key);
        ReplaceStep(m_lines, i, sec, key, val);
        if held {
          m_lines := m_lines[i := line.(value := val, text := line.key + "=" + val)];
          RewriteAt(old(m_lines), i, val);
          return;
        }
      }
      InsertKv(sec, key, val);
    }

    method InsertKv(sec: string, key: string, val: string)
      modifies this
      ensures m_lines == Inserted(old(m_lines), sec, key, val)
    {
      hide LastHeader, BodyLength;
      var kv := Line(KeyValue, key + "=" + val, sec, key, val);
      var secIdx := FindHeader(sec);
      if secIdx == |m_lines| {
        if m_lines != [] && m_lines[|m_lines| - 1].text != [] {
          m_lines := m_lines + [Line(Other, "", "", "", "")];
        }
        m_lines := m_lines + [Line(Section, "[" + sec + "]", sec, "", "")];
        m_lines := m_lines + [kv];
        return;
      }
      var insertAt := SectionEnd(secIdx);
      m_lines := m_lines[..insertAt] + [kv] + m_lines[insertAt..];
    }

    /** The last header of the section, or the number of lines. */
    method FindHeader(sec: string) returns (secIdx: nat)
      ensures secIdx == LastHeader(m_lines, sec)
    {
      hide SameName;
      secIdx := |m_lines|;
      for i := 0 to |m_lines|
        invariant secIdx == HeaderBefore(m_lines, sec, i)
      {
        if m_lines[i].kind == Section {
          var same := IniIEquals(m_lines[i].section, sec);
          if same {
            secIdx := i;
          }
        }
      }
      HeaderBeforeAll(m_lines, sec);
    }

    method SectionEnd(secIdx: nat) returns (insertAt: nat)
      requires secIdx < |m_lines|
      ensures insertAt == secIdx + 1 + BodyLength(m_lines[secIdx + 1..])
    {
      insertAt := secIdx + 1;
      while insertAt < |m_lines| && m_lines[insertAt].kind != Section
        invariant secIdx + 1 <= insertAt <= |m_lines|
        invariant BodyLength(m_lines[secIdx + 1..]) == insertAt - secIdx - 1 + BodyLength(m_lines[insertAt..])
      {
        assert m_lines[insertAt..][1..] == m_lines[insertAt + 1..];
        insertAt := insertAt + 1;
      }
    }

    method DelKey(sec: string, key: string)
      modifies this
      ensures m_lines == WithoutKey(old(m_lines), sec, key)
      ensures Consistent(old(m_lines), "") ==> Consistent(m_lines, "")
    {
      if Consistent(m_lines, "") {
        DelKeyKeeps(m_lines, "", sec, key);
      }
      hide Consistent, Holds;
      var kept: seq<Line> := [];
      for i := 0 to |m_lines|
        invariant m_lines == old(m_lines)
        invariant WithoutKey(m_lines, sec, key) == kept + WithoutKey(m_lines[i..], sec, key)
      {
        assert m_lines[i..][1..] == m_lines[i + 1..];
        var held := IsPair(m_lines[i], sec, key);
        if held {
          continue;
        }
        Shift(kept, m_lines[i], WithoutKey(m_lines[i + 1..], sec, key));
        kept := kept + [m_lines[i]];
      }
      m_lines := kept;
    }

    method DelSection(sec: string)
      modifies this
      ensures m_lines == WithoutSection(old(m_lines), sec, false)
      ensures Consistent(old(m_lines), "") ==> Consistent(m_lines, "")
    {
      if Consistent(m_lines, "") {
        DelSectionKeeps(m_lines, "", sec, false, "");
      }
      hide Consistent;
      var kept: seq<Line> := [];
      var dropping := false;
      for i := 0 to |m_lines|
        invariant m_lines == old(m_lines)
        invariant WithoutSection(m_lines, sec, false) == kept + WithoutSection(m_lines[i..], sec, dropping)
      {
        assert m_lines[i..][1..] == m_lines[i + 1..];
        ghost var before := dropping;
        if m_lines[i].kind == Section {
          dropping := IniIEquals(m_lines[i].section, sec);
        }
        OneDropped(m_lines[i..], sec, before, dropping);
        if !dropping {
          Shift(kept, m_lines[i], WithoutSection(m_lines[i + 1..], sec, dropping));
          kept := kept + [m_lines[i]];
        }
      }
      m_lines := kept;
    }
  }

  lemma Shift(a: seq<Line>, x: Line, b: seq<Line>)
    ensures a + ([x] + b) == (a + [x]) + b
  {
  }

  lemma Append(a: string, b: string, c: string)
    ensures a + (b + ['\n'] + c) == ((a + b) + ['\n']) + c
  {
  }

  lemma NothingToParse(cur: string)
    ensures ParseLines(RawLines([]), cur) == []
  {
  }

  lemma LinesFrom(text: string, at: nat, end: nat, cur: string)
    requires at < |text| && at <= end <= |text| && end - at == IndexOf(text[at..], '\n')
    ensures var line := ParseLine(DropCr(text[at..end]), cur);
            var rest := if end < |text| then text[end + 1..] else text[end..];
            ParseLines(RawLines(text[at..]), cur) == [line] + ParseLines(RawLines(rest), Next(line, cur))
  {
    var t := text[at..];
    assert t[..end - at] == text[at..end];
    assert end < |text| ==> t[end - at + 1..] == text[end + 1..];
    var raws := RawLines(t);
    assert raws[0] == DropCr(text[at..end]);
    assert raws[1..] == RawLines(if end < |text| then text[end + 1..] else text[end..]);
    hide DropCr, ParseLine;
  }

  /** Some header spells the section just so. */
  ghost predicate Declared(lines: seq<Line>, sec: string)
  {
    exists k :: 0 <= k < |lines| && lines[k].kind.Section? && lines[k].section == sec
  }

  lemma IsDeclared(lines: seq<Line>, k: nat)
    requires k < |lines| && lines[k].kind.Section?
    ensures Declared(lines, lines[k].section)
  {
  }

  predicate Named(names: seq<string>, sec: string)
  {
    exists i :: 0 <= i < |names| && SameName(names[i], sec)
  }

  lemma NamedGrows(names: seq<string>, sec: string)
    ensures Named(names + [sec], sec)
    ensures forall s :: Named(names, s) ==> Named(names + [sec], s)
  {
    SameNameRefl(sec);
    hide SameName;
    assert (names + [sec])[|names|] == sec;
    forall s | Named(names, s)
      ensures Named(names + [sec], s)
    {
      var i :| 0 <= i < |names| && SameName(names[i], s);
      assert (names + [sec])[i] == names[i];
    }
  }

  lemma ReplaceStep(lines: seq<Line>, i: nat, sec: string, key: string, val: string)
    requires i < |lines|
    ensures Has(lines[i..], sec, key) == (Holds(lines[i], sec, key) || Has(lines[i + 1..], sec, key))
    ensures lines[..i] + Replaced(lines[i..], sec, key, val) ==
              if Holds(lines[i], sec, key) then lines[..i] + ([Rewritten(lines[i], val)] + lines[i + 1..])
              else lines[..i + 1] + Replaced(lines[i + 1..], sec, key, val)
  {
    hide Holds, Rewritten;
    assert lines[i..][1..] == lines[i + 1..];
    assert lines[..i + 1] == lines[..i] + [lines[i]];
    Shift(lines[..i], lines[i], Replaced(lines[i + 1..], sec, key, val));
  }

  lemma RewriteAt(lines: seq<Line>, i: nat, val: string)
    requires i < |lines|
    ensures lines[i := lines[i].(value := val, text := lines[i].key + "=" + val)]
            == lines[..i] + ([Rewritten(lines[i], val)] + lines[i + 1..])
  {
  }

  /** The last header of a section among the first n lines, or the number of lines. */
  function HeaderBefore(lines: seq<Line>, sec: string, n: nat): nat
    requires n <= |lines|
  {
    if n == 0 then |lines|
    else if lines[n - 1].kind.Section? && SameName(lines[n - 1].section, sec) then n - 1
    else HeaderBefore(lines, sec, n - 1)
  }

  lemma {:induction false} LastHeaderIs(lines: seq<Line>, sec: string, n: nat)
    requires n < |lines| && lines[n].kind.Section? && SameName(lines[n].section, sec)
    requires forall i :: n < i < |lines| ==> !(lines[i].kind.Section? && SameName(lines[i].section, sec))
    ensures LastHeader(lines, sec) == n
  {
    hide SameName;
    if n == 0 {
      NoHeader(lines[1..], sec);
    } else {
      LastHeaderIs(lines[1..], sec, n - 1);
    }
  }

  lemma {:induction false} NoHeader(lines: seq<Line>, sec: string)
    requires forall i :: 0 <= i < |lines| ==> !(lines[i].kind.Section? && SameName(lines[i].section, sec))
    ensures LastHeader(lines, sec) == |lines|
  {
    hide SameName;
    if lines != [] {
      NoHeader(lines[1..], sec);
    }
  }

  lemma {:induction false} HeaderBeforeIs(lines: seq<Line>, sec: string, n: nat)
    requires n <= |lines|
    ensures var h := HeaderBefore(lines, sec, n);
            && (h == |lines| || (h < n && lines[h].kind.Section? && SameName(lines[h].section, sec)))
            && forall i :: (if h == |lines| then 0 else h + 1) <= i < n ==> !(lines[i].kind.Section? && SameName(lines[i].section, sec))
  {
    hide SameName;
    if n > 0 {
      HeaderBeforeIs(lines, sec, n - 1);
    }
  }

  lemma HeaderBeforeAll(lines: seq<Line>, sec: string)
    ensures HeaderBefore(lines, sec, |lines|) == LastHeader(lines, sec)
  {
    HeaderBeforeIs(lines, sec, |lines|);
    hide SameName;
    var h := HeaderBefore(lines, sec, |lines|);
    if h == |lines| {
      NoHeader(lines, sec);
    } else {
      LastHeaderIs(lines, sec, h);
    }
  }
}
