/** Printing and parsing of prefixes, and the file gen_chnroute.py writes as the
    client reads it back. */
module CidrText {
  import opened Text
  import opened Bits
  import opened Cidrs
  import opened ChnRoute

  /** Octet i of an address, octet 3 being the first one printed. */
  function Octet(addr: nat, i: nat): nat
  {
    var shifted := if i == 3 then addr / 0x100_0000
                   else if i == 2 then addr / 0x1_0000
                   else if i == 1 then addr / 0x100
                   else addr;
    And(shifted, 0xFF)
  }

  function ToString(c: Cidr): string
  {
    Decimal(Octet(c.addr, 3)) + "." + Decimal(Octet(c.addr, 2)) + "."
    + Decimal(Octet(c.addr, 1)) + "." + Decimal(Octet(c.addr, 0)) + "/" + Decimal(c.prefix)
  }

  // ---- the parser as a function of the remaining text ----------------------

  datatype Token = Token(value: nat, rest: string)

  /** One to three digits worth at most 255, taken greedily. */
  function TakeOctet(s: string): Option<Token>
  {
    var n := DigitRun(s);
    if 1 <= n <= 3 && Value(s[..n]) <= 255 then Some(Token(Value(s[..n]), s[n..])) else None
  }

  /** n more dotted octets after the ones worth acc. */
  function TakeOctets(acc: nat, s: string, n: nat): Option<Token>
    decreases n
  {
    match TakeOctet(s)
    case None => None
    case Some(t) =>
      var next := acc * 256 + t.value;
      if n <= 1 then Some(Token(next, t.rest))
      else if t.rest == [] || t.rest[0] != '.' then None
      else TakeOctets(next, t.rest[1..], n - 1)
  }

  /** Nothing (a host route), or a slash and digits worth at most 32. */
  function TakePrefix(s: string): Option<nat>
  {
    if s == [] then Some(32)
    else if s[0] != '/' then None
    else
      var d := s[1..];
      if d != [] && AllDigits(d) && Value(d) <= 32 then Some(Value(d)) else None
  }

  function Parsed(text: string): Option<Cidr>
  {
    match TakeOctets(0, Trim(text), 4)
    case None => None
    case Some(a) =>
      match TakePrefix(a.rest)
      case None => None
      case Some(p) => Some(Cidr(a.value, p))
  }

  // ---- the parser as the source runs it ------------------------------------

  method ParseOctet(s: string, p: nat) returns (ok: bool, q: nat, out: nat)
    requires p <= |s|
    ensures ok <==> TakeOctet(s[p..]).Some?
    ensures ok ==> p <= q <= |s| && TakeOctet(s[p..]) == Some(Token(out, s[q..]))
  {
    q, out := p, 0;
    if p >= |s| || !IsDigit(s[p]) {
      return false, p, 0;
    }
    ghost var t := s[p..];
    ghost var n := DigitRun(t);
    var digits := 0;
    while q < |s| && IsDigit(s[q])
      invariant p <= q <= |s| && digits == q - p <= 3 && digits <= n
      invariant AllDigits(t[..digits]) && out == Value(t[..digits]) <= 255
    {
      assert s[q] == t[digits];
      ValueExtends(t, digits);
      out := out * 10 + DigitValue(s[q]);
      digits := digits + 1;
      if digits > 3 || out > 255 {
        assert t[..n][..digits] == t[..digits];
        ValueGrows(t[..n], digits);
        return false, p, 0;
      }
      q := q + 1;
    }
    assert digits < |t| ==> t[digits] == s[q];
    DigitRunIsUnique(t, digits);
    assert t[digits..] == s[q..];
    return true, q, out;
  }

  method ParsePrefix(s: string, b: nat) returns (ok: bool, prefix: nat)
    requires b <= |s|
    ensures ok <==> TakePrefix(s[b..]).Some?
    ensures ok ==> TakePrefix(s[b..]) == Some(prefix)
  {
    prefix := 32;
    if b >= |s| {
      return true, prefix;
    }
    if s[b] != '/' {
      return false, prefix;
    }
    ghost var d := s[b..][1..];
    var p := b + 1;
    if p >= |s| || !IsDigit(s[p]) {
      assert p < |s| ==> d[0] == s[p];
      return false, prefix;
    }
    var v := 0;
    while p < |s| && IsDigit(s[p])
      invariant b + 1 <= p <= |s|
      invariant AllDigits(d[..p - b - 1]) && v == Value(d[..p - b - 1]) <= 32
    {
      assert s[p] == d[p - b - 1];
      ValueExtends(d, p - b - 1);
      v := v * 10 + DigitValue(s[p]);
      p := p + 1;
      if v > 32 {
        if AllDigits(d) {
          ValueGrows(d, p - b - 1);
        }
        return false, prefix;
      }
    }
    if p != |s| {
      assert s[p] == d[p - b - 1];
      return false, prefix;
    }
    assert d[..p - b - 1] == d;
    return true, v;
  }

  method Parse(text: string) returns (ok: bool, out: Cidr)
    ensures ok <==> Parsed(text).Some?
    ensures ok ==> Parsed(text) == Some(out)
  {
    hide TakeOctet, TakePrefix, Trim;
    out := Cidr(0, 0);
    var s := Trim(text);
    var p: nat, addr: nat := 0, 0;
    assert s[0..] == s;
    for i := 0 to 4
      invariant p <= |s|
      invariant i < 4 ==> TakeOctets(0, s, 4) == TakeOctets(addr, s[p..], 4 - i)
      invariant i == 4 ==> TakeOctets(0, s, 4) == Some(Token(addr, s[p..]))
    {
      var good, q, v := ParseOctet(s, p);
      if !good {
        return false, out;
      }
      p := q;
      addr := addr * 256 + v;
      if i < 3 {
        if p >= |s| || s[p] != '.' {
          return false, out;
        }
        assert s[p..][1..] == s[p + 1..];
        p := p + 1;
      }
    }
    var good, prefix := ParsePrefix(s, p);
    return good, Cidr(addr, prefix);
  }

  // ---- round trip -----------------------------------------------------------

  lemma OctetsRebuild(a: nat)
    requires a < SPACE
    ensures Octet(a, 3) < 256 && Octet(a, 2) < 256 && Octet(a, 1) < 256 && Octet(a, 0) < 256
    ensures a == ((Octet(a, 3) * 256 + Octet(a, 2)) * 256 + Octet(a, 1)) * 256 + Octet(a, 0)
  {
    AndLowByte(a);
    AndLowByte(a / 0x100);
    AndLowByte(a / 0x1_0000);
    AndLowByte(a / 0x100_0000);
    Base256(a);
  }

  lemma Base256(a: nat)
    requires a < SPACE
    ensures a == ((a / 0x100_0000 % 256 * 256 + a / 0x1_0000 % 256) * 256 + a / 0x100 % 256) * 256 + a % 256
  {
  }

  lemma AndLowByte(x: nat)
    ensures And(x, 0xFF) == x % 256
  {
    AndLowMask(x, 8);
    WordSizes();
  }

  lemma AndLowMask(x: nat, k: nat)
    ensures And(x, Pow2(k) - 1) == x % Pow2(k)
  {
    if x != 0 && k != 0 {
      AndLowMask(x / 2, k - 1);
      HalfMod(x, Pow2(k - 1));
      assert (Pow2(k) - 1) / 2 == Pow2(k - 1) - 1;
    }
  }

  lemma TakePrintedOctet(v: nat, rest: string)
    requires v < 256 && (rest != [] ==> !IsDigit(rest[0]))
    ensures TakeOctet(Decimal(v) + rest) == Some(Token(v, rest))
  {
    var s := Decimal(v) + rest;
    assert s[..|Decimal(v)|] == Decimal(v);
    DigitRunIsUnique(s, |Decimal(v)|);
    ValueOfDecimal(v);
    DecimalLength(v);
  }

  lemma TakeDottedOctet(acc: nat, v: nat, rest: string, n: nat)
    requires v < 256 && n > 1
    ensures TakeOctets(acc, Decimal(v) + ("." + rest), n) == TakeOctets(acc * 256 + v, rest, n - 1)
  {
    hide TakeOctet, Decimal;
    TakePrintedOctet(v, "." + rest);
    assert ("." + rest)[1..] == rest;
  }

  lemma TakeLastOctet(acc: nat, v: nat, rest: string)
    requires v < 256 && (rest != [] ==> !IsDigit(rest[0]))
    ensures TakeOctets(acc, Decimal(v) + rest, 1) == Some(Token(acc * 256 + v, rest))
  {
    hide TakeOctet, Decimal;
    TakePrintedOctet(v, rest);
  }

  lemma TakePrintedPrefix(p: nat)
    requires p <= 32
    ensures TakePrefix("/" + Decimal(p)) == Some(p)
  {
    ValueOfDecimal(p);
    assert ("/" + Decimal(p))[1..] == Decimal(p);
  }

  /** Reading back a printed prefix gives it back, whatever blanks surround it. */
  lemma ParseOfToString(c: Cidr, w: string, v: string)
    requires c.Ok() && AllBlank(w) && AllBlank(v)
    ensures Parsed(w + ToString(c) + v) == Some(c)
  {
    hide TakeOctets, TakePrefix, Octet, Decimal, Trim;
    var a, b, d, e := Octet(c.addr, 3), Octet(c.addr, 2), Octet(c.addr, 1), Octet(c.addr, 0);
    OctetsRebuild(c.addr);
    var rest := "/" + Decimal(c.prefix);
    var s3 := Decimal(d) + ("." + (Decimal(e) + rest));
    var s2 := Decimal(b) + ("." + s3);
    var s := Decimal(a) + ("." + s2);
    assert ToString(c) == s;
    assert s[|s| - 1] == Decimal(c.prefix)[|Decimal(c.prefix)| - 1];
    assert s[0] == Decimal(a)[0];
    TrimPadded(w, s, v);
    TakeDottedOctet(0, a, s2, 4);
    TakeDottedOctet(a, b, s3, 3);
    TakeDottedOctet(a * 256 + b, d, Decimal(e) + rest, 2);
    TakeLastOctet((a * 256 + b) * 256 + d, e, rest);
    TakePrintedPrefix(c.prefix);
  }

  // ---- the grammar ----------------------------------------------------------------------

  /** One to three digits, leading zeros allowed, worth at most 255. */
  predicate OctetText(o: string)
  {
    1 <= |o| <= 3 && AllDigits(o) && Value(o) <= 255
  }

  function Worth(o: string): nat
    requires OctetText(o)
  {
    Value(o)
  }

  /** Nothing, or a slash and any number of digits worth at most 32. */
  predicate TailText(t: string)
  {
    t == [] || (t[0] == '/' && t[1..] != [] && AllDigits(t[1..]) && Value(t[1..]) <= 32)
  }

  function Dotted(a: string, b: string, c: string, d: string, tail: string): string
  {
    a + ("." + (b + ("." + (c + ("." + (d + tail))))))
  }

  function Four(a: string, b: string, c: string, d: string): nat
    requires OctetText(a) && OctetText(b) && OctetText(c) && OctetText(d)
  {
    ((Worth(a) * 256 + Worth(b)) * 256 + Worth(c)) * 256 + Worth(d)
  }

  /** The parts an address line is made of. */
  datatype Spelling = Spelling(left: string, a: string, b: string, c: string, d: string, tail: string, right: string) {
    predicate Ok()
    {
      && AllBlank(left) && OctetText(a) && OctetText(b) && OctetText(c) && OctetText(d) && TailText(tail) && AllBlank(right)
    }

    function Core(): string
    {
      Dotted(a, b, c, d, tail)
    }

    function Line(): string
    {
      left + Core() + right
    }

    function Block(): Cidr
      requires Ok()
    {
      Cidr(Four(a, b, c, d), if tail == [] then 32 else Value(tail[1..]))
    }
  }

  lemma TakeSpelledOctet(o: string, rest: string)
    requires OctetText(o) && (rest != [] ==> !IsDigit(rest[0]))
    ensures TakeOctet(o + rest) == Some(Token(Worth(o), rest))
  {
    var s := o + rest;
    assert s[..|o|] == o && s[|o|..] == rest;
    DigitRunIsUnique(s, |o|);
  }

  lemma TakeSpelledDot(acc: nat, o: string, rest: string, n: nat)
    requires OctetText(o) && n > 1
    ensures TakeOctets(acc, o + ("." + rest), n) == TakeOctets(acc * 256 + Worth(o), rest, n - 1)
  {
    hide TakeOctet, OctetText, Worth;
    TakeSpelledOctet(o, "." + rest);
    assert ("." + rest)[1..] == rest;
  }

  lemma CoreTrims(sp: Spelling)
    requires sp.Ok()
    ensures Trim(sp.Line()) == sp.Core()
  {
    var s := sp.Core();
    var last := if sp.tail == [] then sp.d else sp.tail;
    assert s[0] == sp.a[0] && IsDigit(sp.a[0]);
    assert s[|s| - 1] == last[|last| - 1];
    assert IsDigit(last[|last| - 1]) by { assert sp.tail != [] ==> sp.tail[1..][|sp.tail| - 2] == sp.tail[|sp.tail| - 1]; }
    TrimPadded(sp.left, s, sp.right);
  }

  lemma OctetsSpelled(a: string, b: string, c: string, d: string, tail: string)
    requires OctetText(a) && OctetText(b) && OctetText(c) && OctetText(d) && (tail != [] ==> !IsDigit(tail[0]))
    ensures TakeOctets(0, Dotted(a, b, c, d, tail), 4) == Some(Token(Four(a, b, c, d), tail))
  {
    hide TakeOctets, OctetText, Worth;
    var s3 := d + tail;
    var s2 := c + ("." + s3);
    var s1 := b + ("." + s2);
    var v1 := 0 * 256 + Worth(a);
    var v2 := v1 * 256 + Worth(b);
    var v3 := v2 * 256 + Worth(c);
    TakeSpelledDot(0, a, s1, 4);
    TakeSpelledDot(v1, b, s2, 3);
    TakeSpelledDot(v2, c, s3, 2);
    LastSpelled(v3, d, tail);
  }

  lemma SpelledParses(sp: Spelling)
    requires sp.Ok()
    ensures Parsed(sp.Line()) == Some(sp.Block())
  {
    hide TakeOctets, TakePrefix, OctetText, Trim, Value, Dotted, Four;
    CoreTrims(sp);
    TailIsPrefix(sp.tail);
    OctetsSpelled(sp.a, sp.b, sp.c, sp.d, sp.tail);
  }

  lemma LastSpelled(acc: nat, o: string, rest: string)
    requires OctetText(o) && (rest != [] ==> !IsDigit(rest[0]))
    ensures TakeOctets(acc, o + rest, 1) == Some(Token(acc * 256 + Worth(o), rest))
  {
    hide TakeOctet, OctetText, Worth;
    TakeSpelledOctet(o, rest);
  }

  lemma TailIsPrefix(t: string)
    ensures TakePrefix(t).Some? <==> TailText(t)
    ensures TailText(t) ==> TakePrefix(t) == Some(if t == [] then 32 else Value(t[1..]))
  {
  }

  /** What the scanner took as an octet is one. */
  lemma OctetTaken(s: string) returns (o: string)
    requires TakeOctet(s).Some?
    ensures OctetText(o) && s == o + TakeOctet(s).value.rest && TakeOctet(s).value.value == Worth(o)
  {
    o := s[..DigitRun(s)];
  }

  lemma DotTaken(acc: nat, s: string, n: nat) returns (o: string, rest: string)
    requires n > 1 && TakeOctets(acc, s, n).Some?
    ensures OctetText(o) && s == o + ("." + rest) && TakeOctets(acc, s, n) == TakeOctets(acc * 256 + Worth(o), rest, n - 1)
  {
    hide TakeOctet, OctetText, Worth;
    o := OctetTaken(s);
    var t := TakeOctet(s).value.rest;
    rest := t[1..];
    assert t == "." + rest;
  }

  lemma OctetsTaken(s: string) returns (a: string, b: string, c: string, d: string)
    requires TakeOctets(0, s, 4).Some?
    ensures OctetText(a) && OctetText(b) && OctetText(c) && OctetText(d)
    ensures var t := TakeOctets(0, s, 4).value;
            s == Dotted(a, b, c, d, t.rest) && t.value == Four(a, b, c, d)
  {
    hide TakeOctets, OctetText, Worth;
    var s1, s2, s3;
    a, s1 := DotTaken(0, s, 4);
    b, s2 := DotTaken(0 * 256 + Worth(a), s1, 3);
    c, s3 := DotTaken(Worth(a) * 256 + Worth(b), s2, 2);
    d := LastTaken((Worth(a) * 256 + Worth(b)) * 256 + Worth(c), s3);
  }

  lemma ParsedIsSpelled(text: string) returns (sp: Spelling)
    requires Parsed(text).Some?
    ensures sp.Ok() && sp.Line() == text && sp.Block() == Parsed(text).value
  {
    var left := TrimLeftParts(text);
    var right := TrimRightParts(TrimLeft(text));
    var s := Trim(text);
    assert text == left + s + right;
    hide TakeOctets, TakePrefix, OctetText, Trim, TrimLeft, TrimRight, Dotted, Four, Value;
    var a, b, c, d := OctetsTaken(s);
    var tail := TakeOctets(0, s, 4).value.rest;
    TailIsPrefix(tail);
    sp := Spelling(left, a, b, c, d, tail, right);
  }

  lemma LastTaken(acc: nat, s: string) returns (o: string)
    requires TakeOctets(acc, s, 1).Some?
    ensures var t := TakeOctets(acc, s, 1).value;
            OctetText(o) && s == o + t.rest && t.value == acc * 256 + Worth(o)
  {
    hide TakeOctet, OctetText, Worth;
    o := OctetTaken(s);
  }

  /** A line is accepted exactly when it is four octets with dots between them and, if
      anything follows, a slash and a prefix length, blanks aside; and it then means
      the block they say, a host when there is no prefix length. */
  lemma ParsedIff(text: string, block: Cidr)
    ensures Parsed(text) == Some(block) <==> exists sp: Spelling :: sp.Ok() && sp.Line() == text && sp.Block() == block
  {
    if Parsed(text) == Some(block) {
      var sp := ParsedIsSpelled(text);
    }
    if sp: Spelling :| sp.Ok() && sp.Line() == text && sp.Block() == block {
      SpelledParses(sp);
    }
  }

  lemma ParsedIsOk(text: string)
    ensures Parsed(text).Some? ==> Parsed(text).value.Ok()
  {
    OctetsBelow(0, Trim(text), 4);
    assert Scale(4) == SPACE;
  }

  ghost function Scale(n: nat): nat
  {
    if n == 0 then 1 else 256 * Scale(n - 1)
  }

  lemma OctetsBelow(acc: nat, s: string, n: nat)
    requires n >= 1
    ensures TakeOctets(acc, s, n).Some? ==> TakeOctets(acc, s, n).value.value < (acc + 1) * Scale(n)
    decreases n
  {
    hide TakeOctet;
    OctetBelow(s);
    var t := TakeOctet(s);
    if t.Some? {
      var next := acc * 256 + t.value.value;
      if n == 1 {
        assert Scale(1) == 256;
      } else if t.value.rest != [] && t.value.rest[0] == '.' {
        OctetsBelow(next, t.value.rest[1..], n - 1);
        ScaleUp(acc, next, Scale(n - 1));
      }
    }
  }

  lemma OctetBelow(s: string)
    ensures TakeOctet(s).Some? ==> TakeOctet(s).value.value < 256
  {
  }

  lemma ScaleUp(acc: nat, next: nat, z: nat)
    requires next < acc * 256 + 256
    ensures (next + 1) * z <= (acc + 1) * (256 * z)
  {
    MulMono(next + 1, (acc + 1) * 256, z);
    assert ((acc + 1) * 256) * z == (acc + 1) * (256 * z);
  }

  // ---- the generated file ---------------------------------------------------

  /** Whether a reader of the file finds x in some line. */
  ghost predicate Listed(lines: seq<string>, x: nat)
  {
    exists i :: 0 <= i < |lines| && Parsed(lines[i]).Some? && Contains(Parsed(lines[i]).value, x)
  }

  /** The prefix lines of the output file. An address is listed, as the client's
      parse and contains judge it, exactly when it was in an input range. */
  method WritePrefixes(ranges: seq<Range>) returns (lines: seq<string>)
    requires AllOk(ranges)
    ensures forall x: nat | x < SPACE :: Listed(lines, x) <==> InRanges(ranges, x)
  {
    hide ToString;
    var cidrs := Aggregate(ranges);
    lines := [];
    for n := 0 to |cidrs|
      invariant |lines| == n
      invariant forall i :: 0 <= i < n ==> lines[i] == ToString(cidrs[i])
    {
      lines := lines + [ToString(cidrs[n])];
    }
    ListedIsInBlocks(cidrs, lines);
  }

  lemma ListedIsInBlocks(cidrs: seq<Cidr>, lines: seq<string>)
    requires AllAligned(cidrs) && |lines| == |cidrs|
    requires forall i :: 0 <= i < |lines| ==> lines[i] == ToString(cidrs[i])
    ensures forall x: nat | x < SPACE :: Listed(lines, x) <==> InBlocks(cidrs, x)
  {
    forall x: nat | x < SPACE
      ensures Listed(lines, x) <==> InBlocks(cidrs, x)
    {
      forall i | 0 <= i < |lines|
        ensures Parsed(lines[i]) == Some(cidrs[i])
        ensures Contains(cidrs[i], x) <==> cidrs[i].Holds(x)
      {
        LineMeansBlock(cidrs[i], x);
      }
      if Listed(lines, x) {
        var i :| 0 <= i < |lines| && Parsed(lines[i]).Some? && Contains(Parsed(lines[i]).value, x);
        assert cidrs[i].Holds(x);
      }
      if InBlocks(cidrs, x) {
        var i :| 0 <= i < |cidrs| && cidrs[i].Holds(x);
        assert Parsed(lines[i]).Some? && Contains(Parsed(lines[i]).value, x);
      }
    }
  }

  lemma LineMeansBlock(c: Cidr, x: nat)
    requires c.Aligned() && x < SPACE
    ensures Parsed(ToString(c)) == Some(c)
    ensures Contains(c, x) <==> c.Holds(x)
  {
    ParseOfToString(c, [], []);
    assert [] + ToString(c) + [] == ToString(c);
    ContainsIsInterval(c, x);
    NormalizeRoundsDown(c);
  }
}
