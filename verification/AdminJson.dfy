/** Flat JSON objects of strings and integers (server/ServerAdmin/AdminWire.h), read
    back by searching for the quoted key. The search can land in an earlier value;
    Lookup says exactly which field is found. */
module AdminJson {
  import opened Text

  const Q: char := '"'
  const BACK: char := '\\'
  const LL_MAX: int := 0x7FFF_FFFF_FFFF_FFFF
  const LL_MIN: int := -0x8000_0000_0000_0000

  datatype Field = Str(key: string, text: string) | Num(key: string, number: int)

  predicate Alnum(c: char)
  {
    '0' <= c <= '9' || 'A' <= c <= 'Z' || 'a' <= c <= 'z'
  }

  predicate Plain(key: string)
  {
    forall i :: 0 <= i < |key| ==> Alnum(key[i])
  }

  predicate Proper(fs: seq<Field>)
  {
    forall i :: 0 <= i < |fs| ==> Plain(fs[i].key) && (fs[i].Num? ==> LL_MIN <= fs[i].number <= LL_MAX)
  }

  // ---- writing ------------------------------------------------------------------------

  function EscapeChar(c: char): string
  {
    if c == Q then [BACK, Q]
    else if c == BACK then [BACK, BACK]
    else if c == '\n' then [BACK, 'n']
    else if c == '\r' then [BACK, 'r']
    else if c == '\t' then [BACK, 't']
    else [c]
  }

  function Escaped(s: string): string
  {
    if s == [] then [] else EscapeChar(s[0]) + Escaped(s[1..])
  }

  function Shown(f: Field): string
  {
    [Q] + f.key + [Q, ':'] + if f.Str? then [Q] + Escaped(f.text) + [Q] else Number(f.number)
  }

  function Joined(fs: seq<Field>): string
  {
    if fs == [] then [] else if |fs| == 1 then Shown(fs[0]) else Shown(fs[0]) + [','] + Joined(fs[1..])
  }

  /** The finished object. */
  function Rendered(fs: seq<Field>): string
  {
    ['{'] + Joined(fs) + ['}']
  }

  lemma {:induction false} EscapedAppend(s: string, c: char)
    ensures Escaped(s + [c]) == Escaped(s) + EscapeChar(c)
  {
    if s == [] {
      assert s + [c] == [c] && [c][1..] == [];
      assert EscapeChar(c) + [] == EscapeChar(c);
    } else {
      assert (s + [c])[1..] == s[1..] + [c];
      EscapedAppend(s[1..], c);
      assert EscapeChar(s[0]) + (Escaped(s[1..]) + EscapeChar(c)) == (EscapeChar(s[0]) + Escaped(s[1..])) + EscapeChar(c);
    }
  }

  lemma {:induction false} JoinedAppend(fs: seq<Field>, f: Field)
    ensures Joined(fs + [f]) == if fs == [] then Shown(f) else Joined(fs) + [','] + Shown(f)
  {
    hide Shown;
    if fs == [] {
      assert fs + [f] == [f];
    } else {
      assert (fs + [f])[1..] == fs[1..] + [f];
      JoinedAppend(fs[1..], f);
      if |fs| > 1 {
        assert Shown(fs[0]) + [','] + (Joined(fs[1..]) + [','] + Shown(f))
               == (Shown(fs[0]) + [','] + Joined(fs[1..])) + [','] + Shown(f);
      } else {
        assert fs[1..] == [];
      }
    }
  }

  method Escape(s: string) returns (r: string)
    ensures r == Escaped(s)
  {
    r := [];
    for i := 0 to |s|
      invariant r == Escaped(s[..i])
    {
      assert s[..i + 1] == s[..i] + [s[i]];
      EscapedAppend(s[..i], s[i]);
      var c := s[i];
      if c == Q {
        r := r + [BACK, Q];
      } else if c == BACK {
        r := r + [BACK, BACK];
      } else if c == '\n' {
        r := r + [BACK, 'n'];
      } else if c == '\r' {
        r := r + [BACK, 'r'];
      } else if c == '\t' {
        r := r + [BACK, 't'];
      } else {
        r := r + [c];
      }
    }
    assert s[..|s|] == s;
  }

  class Json {
    var s: string
    var first: bool
    ghost var fields: seq<Field>

    ghost predicate Valid()
      reads this
    {
      s == ['{'] + Joined(fields) && (first <==> fields == [])
    }

    constructor ()
      ensures Valid() && fields == []
    {
      s, first, fields := "{", true, [];
    }

    method Str(k: string, v: string)
      requires Valid()
      modifies this
      ensures Valid() && fields == old(fields) + [Field.Str(k, v)]
    {
      hide Joined;
      JoinedAppend(fields, Field.Str(k, v));
      JoinedEmpty();
      Sep();
      var e := Escape(v);
      s := s + ([Q] + k + [Q, ':'] + ([Q] + e + [Q]));
      fields := fields + [Field.Str(k, v)];
    }

    method Num(k: string, n: int)
      requires Valid()
      modifies this
      ensures Valid() && fields == old(fields) + [Field.Num(k, n)]
    {
      hide Joined;
      JoinedAppend(fields, Field.Num(k, n));
      JoinedEmpty();
      Sep();
      s := s + ([Q] + k + [Q, ':'] + Number(n));
      fields := fields + [Field.Num(k, n)];
    }

    method Sep()
      modifies this`s, this`first
      ensures s == old(s) + (if old(first) then [] else [',']) && !first
    {
      if !first {
        s := s + [','];
      } else {
        s := s + [];
      }
      first := false;
    }

    method Done() returns (r: string)
      requires Valid()
      ensures r == Rendered(fields)
    {
      return s + ['}'];
    }
  }

  lemma JoinedEmpty()
    ensures Joined([]) == []
  {
  }

  // ---- searching -----------------------------------------------------------------------

  predicate StartsWith(t: string, pat: string)
  {
    pat == [] || (t != [] && t[0] == pat[0] && StartsWith(t[1..], pat[1..]))
  }

  lemma {:induction false} StartsWithPrefix(t: string, pat: string)
    ensures StartsWith(t, pat) <==> pat <= t
  {
    if pat != [] && t != [] {
      StartsWithPrefix(t[1..], pat[1..]);
      assert t == [t[0]] + t[1..] && pat == [pat[0]] + pat[1..];
    }
  }

  /** What follows the first occurrence of a pattern, None when there is none. */
  function After(s: string, pat: string): Option<string>
  {
    if StartsWith(s, pat) then (StartsWithPrefix(s, pat); Some(s[|pat|..]))
    else if s == [] then None
    else After(s[1..], pat)
  }

  /** std::string::find from a position on. */
  method Find(s: string, pat: string, from: nat) returns (r: Option<nat>)
    requires from <= |s| && pat != []
    ensures r.Some? ==> from <= r.value && r.value + |pat| <= |s| && After(s[from..], pat) == Some(s[r.value + |pat|..])
    ensures r.None? ==> After(s[from..], pat) == None
  {
    var p := from;
    while p + |pat| <= |s|
      invariant from <= p <= |s|
      invariant After(s[from..], pat) == After(s[p..], pat)
      decreases |s| - p
    {
      StartsAt(s, p, pat);
      if s[p..p + |pat|] == pat {
        return Some(p);
      }
      p := p + 1;
    }
    ShortHasNone(s[p..], pat);
    return None;
  }

  lemma StartsAt(s: string, p: nat, pat: string)
    requires p + |pat| <= |s| && pat != []
    ensures s[p..p + |pat|] == pat ==> After(s[p..], pat) == Some(s[p + |pat|..])
    ensures s[p..p + |pat|] != pat ==> After(s[p..], pat) == After(s[p + 1..], pat)
  {
    StartsWithPrefix(s[p..], pat);
    assert s[p..][..|pat|] == s[p..p + |pat|] && s[p..][|pat|..] == s[p + |pat|..] && s[p..][1..] == s[p + 1..];
  }

  lemma {:induction false} ShortHasNone(s: string, pat: string)
    requires |s| < |pat|
    ensures After(s, pat) == None
  {
    StartsWithPrefix(s, pat);
    if s != [] {
      ShortHasNone(s[1..], pat);
    }
  }

  function Pattern(key: string): string
  {
    [Q] + key + [Q]
  }

  /** The text find_value points at: behind the first colon after the quoted key,
      blanks skipped. */
  function ValueRest(obj: string, key: string): Option<string>
  {
    match After(obj, Pattern(key))
    case None => None
    case Some(rest) =>
      match After(rest, [':'])
      case None => None
      case Some(value) => Some(TrimLeft(value))
  }

  method FindValue(obj: string, key: string) returns (r: Option<nat>)
    ensures r.Some? ==> r.value <= |obj| && ValueRest(obj, key) == Some(obj[r.value..])
    ensures r.None? ==> ValueRest(obj, key) == None
  {
    var pat := [Q] + key + [Q];
    var k := Find(obj, pat, 0);
    assert obj[0..] == obj;
    if k.None? {
      return None;
    }
    var c := Find(obj, [':'], k.value + |pat|);
    if c.None? {
      return None;
    }
    var i := SkipBlanks(obj, c.value + 1);
    return Some(i);
  }

  method SkipBlanks(obj: string, from: nat) returns (i: nat)
    requires from <= |obj|
    ensures i <= |obj| && TrimLeft(obj[from..]) == obj[i..]
  {
    i := from;
    while i < |obj| && (obj[i] == ' ' || obj[i] == '\t' || obj[i] == '\n' || obj[i] == '\r')
      invariant i <= |obj| && TrimLeft(obj[from..]) == TrimLeft(obj[i..])
    {
      assert obj[i..][1..] == obj[i + 1..];
      i := i + 1;
    }
  }

  // ---- reading values --------------------------------------------------------------------

  function Unescape(e: char): char
  {
    if e == 'n' then '\n' else if e == 'r' then '\r' else if e == 't' then '\t' else e
  }

  /** The string up to its closing quote, None when it is not closed. */
  function TextOf(t: string): Option<string>
  {
    if t == [] then None
    else if t[0] == Q then Some([])
    else if t[0] == BACK && |t| > 1 then Prefixed([Unescape(t[1])], TextOf(t[2..]))
    else Prefixed([t[0]], TextOf(t[1..]))
  }

  function Prefixed(v: string, rest: Option<string>): Option<string>
  {
    if rest.None? then None else Some(v + rest.value)
  }

  lemma PrefixedTwice(u: string, v: string, rest: Option<string>)
    ensures Prefixed(u, Prefixed(v, rest)) == Prefixed(u + v, rest)
    ensures Prefixed([], rest) == rest
  {
    if rest.Some? {
      assert u + (v + rest.value) == (u + v) + rest.value;
      assert [] + rest.value == rest.value;
    }
  }

  function StringOf(rest: Option<string>): Option<string>
  {
    if rest.Some? && rest.value != [] && rest.value[0] == Q then TextOf(rest.value[1..]) else None
  }

  method GetString(obj: string, key: string) returns (out: Option<string>)
    ensures out == StringOf(ValueRest(obj, key))
  {
    var at := FindValue(obj, key);
    if at.None? || at.value >= |obj| || obj[at.value] != Q {
      return None;
    }
    var i: nat := at.value + 1;
    assert obj[at.value..][1..] == obj[i..];
    var v: string := [];
    PrefixedTwice([], [], TextOf(obj[i..]));
    while i < |obj|
      invariant i <= |obj|
      invariant StringOf(ValueRest(obj, key)) == Prefixed(v, TextOf(obj[i..]))
      decreases |obj| - i
    {
      var c := obj[i];
      i := i + 1;
      if c == Q {
        assert v + [] == v;
        return Some(v);
      }
      ghost var was := v;
      if c == BACK && i < |obj| {
        var e := obj[i];
        i := i + 1;
        v := v + [Unescape(e)];
        assert obj[i - 2..][2..] == obj[i..];
        PrefixedTwice(was, [Unescape(e)], TextOf(obj[i..]));
      } else {
        v := v + [c];
        assert obj[i - 1..][1..] == obj[i..];
        PrefixedTwice(was, [c], TextOf(obj[i..]));
      }
    }
    return None;
  }

  function Clamp(n: int): int
  {
    if n > LL_MAX then LL_MAX else if n < LL_MIN then LL_MIN else n
  }

  /** strtoll in base 10: out of range it saturates. */
  function StrToLL(s: string): Option<int>
  {
    match ScanInt(s)
    case None => None
    case Some(v) => Some(Clamp(v))
  }

  function IntOf(rest: Option<string>): Option<int>
  {
    if rest.Some? && rest.value != [] then StrToLL(rest.value) else None
  }

  method GetInt(obj: string, key: string) returns (out: Option<int>)
    ensures out == IntOf(ValueRest(obj, key))
  {
    var at := FindValue(obj, key);
    if at.None? || at.value >= |obj| {
      return None;
    }
    return StrToLL(obj[at.value..]);
  }

  // ---- which field is found -----------------------------------------------------------------

  predicate EndsIn(v: string, w: string)
  {
    v == w || (v != [] && EndsIn(v[1..], w))
  }

  /** A value in whose quoted form the quoted key occurs: it is the key, or ends in a
      quote followed by the key. */
  predicate Shadows(f: Field, key: string)
  {
    f.Str? && (f.text == key || EndsIn(f.text, [Q] + key))
  }

  /** The field the search ends up at: the first with the key, unless an earlier value
      shadows it; then the one behind that value. */
  function Lookup(fs: seq<Field>, key: string): Option<Field>
  {
    if fs == [] then None
    else if fs[0].key == key then Some(fs[0])
    else if Shadows(fs[0], key) then (if |fs| > 1 then Some(fs[1]) else None)
    else Lookup(fs[1..], key)
  }

  // ---- scanning what was written --------------------------------------------------------------

  /** The rest of a value: escaped characters, the closing quote, what follows. */
  function Tail(v: string, z: string): string
  {
    Escaped(v) + ([Q] + z)
  }

  lemma StartsWithCons(c: char, t: string, d: char, pat: string)
    ensures StartsWith([c] + t, [d] + pat) <==> c == d && StartsWith(t, pat)
  {
    assert ([c] + t)[1..] == t && ([d] + pat)[1..] == pat;
  }

  lemma AfterCons(c: char, t: string, pat: string)
    requires pat != [] && c != pat[0]
    ensures After([c] + t, pat) == After(t, pat)
  {
    assert ([c] + t)[1..] == t;
  }

  lemma {:induction false} AfterSkips(w: string, t: string, pat: string)
    requires pat != [] && forall i :: 0 <= i < |w| ==> w[i] != pat[0]
    ensures After(w + t, pat) == After(t, pat)
  {
    if w == [] {
      assert w + t == t;
    } else {
      assert w + t == [w[0]] + (w[1..] + t);
      AfterCons(w[0], w[1..] + t, pat);
      AfterSkips(w[1..], t, pat);
    }
  }

  lemma TailCons(v: string, z: string)
    requires v != []
    ensures Tail(v, z) == EscapeChar(v[0]) + Tail(v[1..], z)
  {
  }

  /** A plain key and a quote stand at the start of the rest exactly when the rest of
      the value is the key. */
  lemma {:induction false} KeyAtStart(v: string, z: string, key: string)
    requires Plain(key)
    ensures StartsWith(Tail(v, z), key + [Q]) <==> v == key
  {
    if v == [] {
      assert Tail(v, z) == [Q] + z;
      KeyHead(Q, z, key);
    } else {
      var e := EscapeChar(v[0]);
      var t := Tail(v[1..], z);
      TailCons(v, z);
      assert e + t == [e[0]] + (e[1..] + t);
      assert v == [v[0]] + v[1..];
      hide Tail, StartsWith;
      KeyHead(e[0], e[1..] + t, key);
      if key != [] && v[0] == key[0] {
        assert e[1..] + t == t;
        KeyAtStart(v[1..], z, key[1..]);
        assert key == [v[0]] + key[1..];
      }
    }
  }

  /** Matching a plain key and a quote, one character on. */
  lemma KeyHead(c: char, t: string, key: string)
    requires Plain(key)
    ensures key == [] ==> (StartsWith([c] + t, key + [Q]) <==> c == Q)
    ensures key != [] ==> (StartsWith([c] + t, key + [Q]) <==> c == key[0] && StartsWith(t, key[1..] + [Q]))
  {
    if key == [] {
      assert key + [Q] == [Q] + [];
      StartsWithCons(c, t, Q, []);
    } else {
      assert key + [Q] == [key[0]] + (key[1..] + [Q]);
      StartsWithCons(c, t, key[0], key[1..] + [Q]);
    }
  }

  lemma {:induction false} EscapedPlain(key: string)
    requires Plain(key)
    ensures Escaped(key) == key
  {
    if key != [] {
      EscapedPlain(key[1..]);
    }
  }

  lemma TailOfKey(key: string, z: string)
    requires Plain(key)
    ensures Tail(key, z) == key + ([Q] + z) && |Tail(key, z)| >= |key| + 1 && Tail(key, z)[|key| + 1..] == z
  {
    EscapedPlain(key);
  }

  /** A quote opens the quoted key exactly when a plain key and a quote follow. */
  lemma AfterQuote(t: string, key: string)
    ensures StartsWith(t, key + [Q]) ==> |t| >= |key| + 1 && After([Q] + t, Pattern(key)) == Some(t[|key| + 1..])
    ensures !StartsWith(t, key + [Q]) ==> After([Q] + t, Pattern(key)) == After(t, Pattern(key))
  {
    assert Pattern(key) == [Q] + (key + [Q]);
    StartsWithCons(Q, t, Q, key + [Q]);
    StartsWithPrefix(t, key + [Q]);
    assert ([Q] + t)[1..] == t;
    if StartsWith(t, key + [Q]) {
      assert ([Q] + t)[|Pattern(key)|..] == t[|key| + 1..];
    }
  }

  /** A quote before something that is neither plain nor a quote opens nothing. */
  lemma AfterClosing(z: string, key: string)
    requires Plain(key) && z != [] && z[0] != Q && !Alnum(z[0])
    ensures After([Q] + z, Pattern(key)) == After(z, Pattern(key))
  {
    assert key != [] ==> (key + [Q])[0] == key[0];
    AfterQuote(z, key);
  }

  /** Inside a value the quoted key occurs only at its end. */
  lemma {:induction false} AfterInside(v: string, z: string, key: string)
    requires Plain(key) && z != [] && z[0] != Q && !Alnum(z[0])
    ensures After(Tail(v, z), Pattern(key)) == if EndsIn(v, [Q] + key) then Some(z) else After(z, Pattern(key))
  {
    if v == [] {
      assert Tail(v, z) == [Q] + z;
      AfterClosing(z, key);
    } else {
      var c, t := v[0], Tail(v[1..], z);
      TailCons(v, z);
      AfterInside(v[1..], z, key);
      assert v == [c] + v[1..];
      EndsInStep(v, [Q] + key);
      hide EndsIn, Tail, After, Plain, StartsWith, Alnum;
      if c == Q {
        InsideQuote(v[1..], z, key);
        assert v == [Q] + key <==> v[1..] == key;
      } else {
        assert v != [Q] + key;
        AfterSkips(EscapeChar(c), t, Pattern(key));
      }
    }
  }

  /** An escaped quote inside a value opens the key when the key is all that is left. */
  lemma InsideQuote(v: string, z: string, key: string)
    requires Plain(key)
    ensures After(EscapeChar(Q) + Tail(v, z), Pattern(key)) == if v == key then Some(z) else After(Tail(v, z), Pattern(key))
  {
    var t := Tail(v, z);
    hide Tail, After, StartsWith, Escaped;
    KeyAtStart(v, z, key);
    TailOfKey(key, z);
    AfterQuote(t, key);
    AfterCons(BACK, [Q] + t, Pattern(key));
    assert [BACK, Q] + t == [BACK] + ([Q] + t);
  }

  lemma EndsInStep(v: string, w: string)
    requires v != []
    ensures EndsIn(v, w) <==> v == w || EndsIn(v[1..], w)
  {
  }

  // ---- from fields to the whole object ---------------------------------------------------------

  function ValueText(f: Field): string
  {
    if f.Str? then [Q] + Escaped(f.text) + [Q] else Number(f.number)
  }

  /** What follows a field: the end, or a comma and the next. */
  function Behind(fs: seq<Field>): string
    requires fs != []
  {
    if |fs| == 1 then "}" else [','] + (Joined(fs[1..]) + "}")
  }

  lemma JoinedIs(fs: seq<Field>)
    requires fs != []
    ensures Joined(fs) + "}" == Shown(fs[0]) + Behind(fs)
    ensures Behind(fs)[0] == ',' || Behind(fs)[0] == '}'
  {
  }

  lemma ShownIs(f: Field, z: string)
    ensures Shown(f) + z == [Q] + (f.key + ([Q] + ([':'] + (ValueText(f) + z))))
  {
  }

  predicate Ends(z: string)
  {
    z != [] && z[0] != Q && !Alnum(z[0])
  }

  /** Past one value: found behind it if it shadows the key, else not in it. */
  lemma AfterValue(f: Field, z: string, key: string)
    requires Plain(key) && Ends(z)
    ensures After(ValueText(f) + z, Pattern(key)) == if Shadows(f, key) then Some(z) else After(z, Pattern(key))
  {
    if f.Str? {
      var t := Tail(f.text, z);
      assert ValueText(f) + z == [Q] + t;
      KeyAtStart(f.text, z, key);
      AfterQuote(t, key);
      AfterInside(f.text, z, key);
      if f.text == key {
        TailOfKey(key, z);
      }
    } else {
      NumberHasNo(f.number, Q);
      AfterSkips(Number(f.number), z, Pattern(key));
    }
  }

  lemma NumberHasNo(n: int, c: char)
    requires c != '-' && !IsDigit(c)
    ensures forall i :: 0 <= i < |Number(n)| ==> Number(n)[i] != c
  {
  }

  /** Past one whole field. */
  lemma AfterField(f: Field, z: string, key: string)
    requires Plain(key) && Plain(f.key) && Ends(z)
    ensures After(Shown(f) + z, Pattern(key)) ==
              if f.key == key then Some([':'] + (ValueText(f) + z))
              else if Shadows(f, key) then Some(z) else After(z, Pattern(key))
  {
    var y := [':'] + (ValueText(f) + z);
    var t := f.key + ([Q] + y);
    ShownIs(f, z);
    TailOfKey(f.key, y);
    KeyAtStart(f.key, y, key);
    AfterQuote(t, key);
    hide Shown, ValueText, Escaped, StartsWith, After, Shadows, Tail;
    if f.key != key {
      AfterKey(f.key, y, key);
      AfterCons(':', ValueText(f) + z, Pattern(key));
      AfterValue(f, z, key);
    }
  }

  /** The key of another field, and its closing quote, are passed by. */
  lemma AfterKey(k: string, y: string, key: string)
    requires Plain(k) && Plain(key) && Ends(y)
    ensures After(k + ([Q] + y), Pattern(key)) == After(y, Pattern(key))
  {
    AfterSkips(k, [Q] + y, Pattern(key));
    AfterClosing(y, key);
  }

  /** The text behind the colon of the field that Lookup names. */
  function Found(fs: seq<Field>, key: string): Option<string>
  {
    if fs == [] then None
    else if fs[0].key == key then Some(ValueText(fs[0]) + Behind(fs))
    else if Shadows(fs[0], key) then (if |fs| > 1 then Some(ValueText(fs[1]) + Behind(fs[1..])) else None)
    else Found(fs[1..], key)
  }

  function BehindColon(rest: Option<string>): Option<string>
  {
    if rest.None? then None else After(rest.value, [':'])
  }

  lemma AfterColon(y: string)
    ensures After([':'] + y, [':']) == Some(y)
  {
    StartsWithPrefix([':'] + y, [':']);
  }

  /** Behind a shadowing value the next colon is the next field's. */
  lemma ColonBehind(fs: seq<Field>)
    requires fs != [] && Proper(fs)
    ensures After(Behind(fs), [':']) == if |fs| > 1 then Some(ValueText(fs[1]) + Behind(fs[1..])) else None
  {
    if |fs| == 1 {
      assert Behind(fs) == ['}'] + [];
      AfterCons('}', [], [':']);
    } else {
      var y := ValueText(fs[1]) + Behind(fs[1..]);
      var w := [',', Q] + fs[1].key + [Q];
      BehindIs(fs);
      hide ValueText, Behind;
      AfterSkips(w, [':'] + y, [':']);
      AfterColon(y);
    }
  }

  lemma BehindIs(fs: seq<Field>)
    requires |fs| > 1
    ensures Behind(fs) == ([',', Q] + fs[1].key + [Q]) + ([':'] + (ValueText(fs[1]) + Behind(fs[1..])))
  {
    var f, z := fs[1], Behind(fs[1..]);
    JoinedIs(fs[1..]);
    ShownIs(f, z);
    var y := [':'] + (ValueText(f) + z);
    hide ValueText, Shown;
    assert [','] + ([Q] + (f.key + ([Q] + y))) == ([',', Q] + f.key + [Q]) + y;
  }

  lemma {:induction false} FoundIsNext(fs: seq<Field>, key: string)
    requires Proper(fs) && Plain(key)
    ensures BehindColon(After(Joined(fs) + "}", Pattern(key))) == Found(fs, key)
  {
    if fs == [] {
      assert Joined(fs) + "}" == ['}'] + [];
      AfterCons('}', [], Pattern(key));
      ShortHasNone([], Pattern(key));
    } else {
      var f, z := fs[0], Behind(fs);
      JoinedIs(fs);
      AfterField(f, z, key);
      hide After, Joined, ValueText, Shadows;
      if f.key == key {
        AfterColon(ValueText(f) + z);
      } else if Shadows(f, key) {
        ColonBehind(fs);
      } else {
        NextField(fs, key);
        FoundIsNext(fs[1..], key);
      }
    }
  }

  lemma NextField(fs: seq<Field>, key: string)
    requires fs != []
    ensures After(Behind(fs), Pattern(key)) == After(Joined(fs[1..]) + "}", Pattern(key))
  {
    if |fs| == 1 {
      assert Joined(fs[1..]) + "}" == "}";
    } else {
      AfterCons(',', Joined(fs[1..]) + "}", Pattern(key));
    }
  }

  lemma RenderedFound(fs: seq<Field>, key: string)
    requires Proper(fs) && Plain(key)
    ensures BehindColon(After(Rendered(fs), Pattern(key))) == Found(fs, key)
  {
    assert Rendered(fs) == ['{'] + (Joined(fs) + "}");
    AfterCons('{', Joined(fs) + "}", Pattern(key));
    FoundIsNext(fs, key);
  }

  lemma {:induction false} FoundIsLookup(fs: seq<Field>, key: string)
    ensures match Lookup(fs, key)
            case None => Found(fs, key) == None
            case Some(f) => f in fs && exists z :: Ends(z) && Found(fs, key) == Some(ValueText(f) + z)
  {
    if fs != [] {
      JoinedIs(fs);
      if |fs| > 1 {
        JoinedIs(fs[1..]);
      }
      assert Ends(Behind(fs));
      assert |fs| > 1 ==> Ends(Behind(fs[1..]));
      hide ValueText, Behind, Shadows, Ends;
      if fs[0].key != key && !Shadows(fs[0], key) {
        FoundIsLookup(fs[1..], key);
      }
    }
  }

  lemma TextOfChar(c: char, t: string)
    requires t != []
    ensures TextOf(EscapeChar(c) + t) == Prefixed([c], TextOf(t))
  {
    var e := EscapeChar(c);
    var w := e + t;
    if |e| == 1 {
      assert w[0] == c && w[1..] == t;
    } else {
      assert w[0] == BACK && w[1] == e[1] && w[2..] == t && Unescape(e[1]) == c;
    }
    hide EscapeChar;
  }

  lemma {:induction false} TextOfEscaped(v: string, z: string)
    ensures TextOf(Tail(v, z)) == Some(v)
  {
    if v == [] {
      assert Tail(v, z) == [Q] + z;
    } else {
      TextOfEscaped(v[1..], z);
      TailCons(v, z);
      TextOfChar(v[0], Tail(v[1..], z));
      assert v == [v[0]] + v[1..];
      hide TextOf, EscapeChar, Escaped;
    }
  }

  lemma NumberReads(n: int, z: string)
    requires LL_MIN <= n <= LL_MAX && Ends(z)
    ensures StrToLL(Number(n) + z) == Some(n)
  {
    ScanOfNumber(n, z);
  }

  /** A value, read as a string and as a number. */
  lemma ValueReads(f: Field, z: string)
    requires Ends(z) && (f.Num? ==> LL_MIN <= f.number <= LL_MAX)
    ensures var rest := Some(TrimLeft(ValueText(f) + z));
            && StringOf(rest) == (if f.Str? then Some(f.text) else None)
            && IntOf(rest) == (if f.Num? then Some(f.number) else None)
  {
    hide StrToLL, TextOf, Number, ScanInt;
    if f.Str? {
      var t := Tail(f.text, z);
      assert ValueText(f) + z == [Q] + t && ([Q] + t)[1..] == t;
      TextOfEscaped(f.text, z);
      QuoteIsNoNumber(t);
    } else {
      NumberReads(f.number, z);
      NumberStart(f.number, z);
      hide IsDigit;
    }
  }

  /** What get_string and get_int return on an object built from these fields, for
      any plain key: the value of the field that Lookup names, if it has the type
      asked for. */
  lemma ReadsLookup(fs: seq<Field>, key: string)
    requires Proper(fs) && Plain(key)
    ensures StringOf(ValueRest(Rendered(fs), key)) ==
              match Lookup(fs, key) case Some(Str(_, v)) => Some(v) case _ => None
    ensures IntOf(ValueRest(Rendered(fs), key)) ==
              match Lookup(fs, key) case Some(Num(_, n)) => Some(n) case _ => None
  {
    RenderedFound(fs, key);
    FoundIsLookup(fs, key);
    hide Rendered, After, Found, Lookup, StringOf, IntOf, ValueText;
    match Lookup(fs, key)
    case None => NothingReads();
    case Some(f) =>
      var z :| Ends(z) && Found(fs, key) == Some(ValueText(f) + z);
      ValueReads(f, z);
  }

  lemma NothingReads()
    ensures StringOf(None) == None && IntOf(None) == None
  {
  }

  lemma QuoteIsNoNumber(t: string)
    ensures StrToLL([Q] + t) == None
  {
  }

  /** With distinct keys, exactly this decides whether a field is found under its own
      key: no value more than one field before it shadows the key. */
  lemma {:induction false} FieldIsFoundIff(fs: seq<Field>, i: nat)
    requires i < |fs|
    requires forall j, k :: 0 <= j < k < |fs| ==> fs[j].key != fs[k].key
    ensures Lookup(fs, fs[i].key) == Some(fs[i]) <==> forall j :: 0 <= j < i - 1 ==> !Shadows(fs[j], fs[i].key)
  {
    var key := fs[i].key;
    if i > 0 {
      assert fs[0].key != key;
      if Shadows(fs[0], key) {
        assert i > 1 ==> fs[1].key != key;
      } else {
        FieldIsFoundIff(fs[1..], i - 1);
        assert forall j :: 0 < j < |fs| ==> fs[j] == fs[1..][j - 1];
      }
    }
  }

  /** So a value equal to a later key hides that key: here the number is not found. */
  lemma ShadowExample()
    ensures var fs := [Field.Str("x", "id"), Field.Str("y", "z"), Field.Num("id", 7)];
            && Lookup(fs, "id") == Some(Field.Str("y", "z"))
            && IntOf(ValueRest(Rendered(fs), "id")) == None
            && StringOf(ValueRest(Rendered(fs), "id")) == Some("z")
  {
    var fs := [Field.Str("x", "id"), Field.Str("y", "z"), Field.Num("id", 7)];
    assert Lookup(fs, "id") == Some(fs[1]);
    hide Lookup, Rendered, ValueRest, IntOf, StringOf;
    ReadsLookup(fs, "id");
  }
}
