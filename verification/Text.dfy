/** Character-level helpers shared by the text formats: blanks, ASCII case and
    decimal numbers. */
module Text {

  datatype Option<+T> = None | Some(value: T) {
    function GetOr(default: T): T
    {
      if Some? then value else default
    }
  }

  predicate IsBlank(c: char)
  {
    c == ' ' || c == '\t' || c == '\r' || c == '\n'
  }

  predicate IsDigit(c: char)
  {
    '0' <= c <= '9'
  }

  predicate AllBlank(s: string)
  {
    forall i :: 0 <= i < |s| ==> IsBlank(s[i])
  }

  predicate AllDigits(s: string)
  {
    forall i :: 0 <= i < |s| ==> IsDigit(s[i])
  }

  function TrimLeft(s: string): string
  {
    if s != [] && IsBlank(s[0]) then TrimLeft(s[1..]) else s
  }

  function TrimRight(s: string): string
  {
    if s != [] && IsBlank(s[|s| - 1]) then TrimRight(s[..|s| - 1]) else s
  }

  function Trim(s: string): string
  {
    TrimRight(TrimLeft(s))
  }

  /** No blank at either end. */
  predicate Tight(s: string)
  {
    s != [] ==> !IsBlank(s[0]) && !IsBlank(s[|s| - 1])
  }

  lemma TrimLeftOfBlank(w: string, s: string)
    requires AllBlank(w)
    ensures TrimLeft(w + s) == TrimLeft(s)
  {
    if w == [] {
      assert w + s == s;
    } else {
      assert (w + s)[1..] == w[1..] + s;
      TrimLeftOfBlank(w[1..], s);
    }
  }

  lemma TrimRightOfBlank(s: string, w: string)
    requires AllBlank(w)
    ensures TrimRight(s + w) == TrimRight(s)
  {
    if w == [] {
      assert s + w == s;
    } else {
      assert (s + w)[..|s + w| - 1] == s + w[..|w| - 1];
      TrimRightOfBlank(s, w[..|w| - 1]);
    }
  }

  lemma TrimPadded(w: string, s: string, v: string)
    requires AllBlank(w) && AllBlank(v) && Tight(s)
    ensures Trim(w + s + v) == s
  {
    TrimRightOfBlank(s, v);
    assert w + s + v == w + (s + v);
    TrimLeftOfBlank(w, s + v);
    if s == [] {
      assert s + v == v + [];
      TrimLeftOfBlank(v, []);
    }
  }

  lemma TrimTight(s: string)
    requires Tight(s)
    ensures Trim(s) == s
  {
  }

  lemma TrimLeftParts(s: string) returns (w: string)
    ensures AllBlank(w) && s == w + TrimLeft(s)
    ensures TrimLeft(s) != [] ==> !IsBlank(TrimLeft(s)[0])
  {
    if s != [] && IsBlank(s[0]) {
      var v := TrimLeftParts(s[1..]);
      w := [s[0]] + v;
    } else {
      w := [];
    }
  }

  lemma TrimRightParts(s: string) returns (w: string)
    ensures AllBlank(w) && s == TrimRight(s) + w
    ensures TrimRight(s) != [] ==> !IsBlank(TrimRight(s)[|TrimRight(s)| - 1])
  {
    if s != [] && IsBlank(s[|s| - 1]) {
      var v := TrimRightParts(s[..|s| - 1]);
      w := v + [s[|s| - 1]];
    } else {
      w := [];
    }
  }

  lemma TrimIsTight(s: string)
    ensures Tight(Trim(s))
  {
    var w := TrimLeftParts(s);
    var v := TrimRightParts(TrimLeft(s));
    assert TrimLeft(s) == Trim(s) + v;
  }

  // ---- decimal numbers ----------------------------------------------------

  function DigitChar(d: nat): (c: char)
    requires d < 10
    ensures IsDigit(c)
  {
    '0' + d as char
  }

  function DigitValue(c: char): (d: nat)
    requires IsDigit(c)
    ensures d < 10
  {
    (c - '0') as nat
  }

  /** Decimal form without leading zeros, as the C and Python printers give it. */
  function Decimal(n: nat): (s: string)
    ensures s != [] && AllDigits(s)
  {
    if n < 10 then [DigitChar(n)] else Decimal(n / 10) + [DigitChar(n % 10)]
  }

  function Value(s: string): nat
    requires AllDigits(s)
  {
    if s == [] then 0 else 10 * Value(s[..|s| - 1]) + DigitValue(s[|s| - 1])
  }

  lemma {:induction false} ValueOfDecimal(n: nat)
    ensures Value(Decimal(n)) == n
  {
    if n >= 10 {
      ValueOfDecimal(n / 10);
      assert Decimal(n)[..|Decimal(n)| - 1] == Decimal(n / 10);
    }
  }

  lemma DecimalLength(n: nat)
    ensures n < 10 ==> |Decimal(n)| == 1
    ensures n < 100 ==> |Decimal(n)| <= 2
    ensures n < 1000 ==> |Decimal(n)| <= 3
  {
  }

  /** Number of leading digits. */
  function DigitRun(s: string): (n: nat)
    ensures n <= |s|
    ensures AllDigits(s[..n])
    ensures n < |s| ==> !IsDigit(s[n])
  {
    if s == [] || !IsDigit(s[0]) then 0
    else
      var n := DigitRun(s[1..]);
      assert s[..n + 1] == [s[0]] + s[1..][..n];
      n + 1
  }

  lemma DigitRunIsUnique(s: string, n: nat)
    requires n <= |s| && AllDigits(s[..n]) && (n < |s| ==> !IsDigit(s[n]))
    ensures DigitRun(s) == n
  {
    if n > 0 {
      assert s[..n][0] == s[0];
      assert s[1..][..n - 1] == s[..n][1..];
      DigitRunIsUnique(s[1..], n - 1);
    }
  }

  lemma ValueExtends(s: string, q: nat)
    requires q < |s| && AllDigits(s[..q]) && IsDigit(s[q])
    ensures AllDigits(s[..q + 1])
    ensures Value(s[..q + 1]) == 10 * Value(s[..q]) + DigitValue(s[q])
  {
    assert s[..q + 1][..q] == s[..q];
  }

  lemma ValueGrows(s: string, n: nat)
    requires n <= |s| && AllDigits(s)
    ensures Value(s[..n]) <= Value(s)
  {
    if n == |s| {
      assert s[..n] == s;
    } else {
      ValueGrows(s[..|s| - 1], n);
      assert s[..|s| - 1][..n] == s[..n];
    }
  }

  /** A signed number, as std::to_string prints it. */
  function Number(n: int): string
  {
    if n < 0 then ['-'] + Decimal(-n) else Decimal(n)
  }

  /** The C locale's white space. */
  predicate IsSpace(c: char)
  {
    IsBlank(c) || c == 11 as char || c == 12 as char
  }

  function SkipSpace(t: string): string
  {
    if t != [] && IsSpace(t[0]) then SkipSpace(t[1..]) else t
  }

  /** A sign and digits behind white space, whatever follows; None without digits. */
  function ScanInt(s: string): Option<int>
  {
    var t := SkipSpace(s);
    if t != [] && t[0] == '-' then Digits(t[1..], true)
    else if t != [] && t[0] == '+' then Digits(t[1..], false)
    else Digits(t, false)
  }

  function Digits(t: string, negative: bool): Option<int>
  {
    if DigitRun(t) == 0 then None
    else Some(if negative then 0 - Value(t[..DigitRun(t)]) else Value(t[..DigitRun(t)]))
  }

  lemma DigitsOfDecimal(m: nat, z: string)
    requires z == [] || !IsDigit(z[0])
    ensures var t := Decimal(m) + z;
            t != [] && IsDigit(t[0]) && Digits(t, false) == Some(m) && Digits(t, true) == Some(0 - m)
  {
    var d := Decimal(m);
    ValueOfDecimal(m);
    assert (d + z)[..|d|] == d;
    DigitRunIsUnique(d + z, |d|);
    hide Decimal, DigitRun, Value;
  }

  /** A printed number is blank-free, and its first character is a sign or digit. */
  lemma NumberStart(n: int, z: string)
    ensures var s := Number(n) + z;
            s != [] && (s[0] == '-' || IsDigit(s[0])) && TrimLeft(s) == s && SkipSpace(s) == s
  {
  }

  lemma NumberShape(n: int, m: nat, z: string)
    requires m == if n < 0 then -n else n
    ensures Number(n) + z == if n < 0 then ['-'] + (Decimal(m) + z) else Decimal(m) + z
  {
    hide Decimal;
    if n < 0 {
      assert (['-'] + Decimal(m)) + z == ['-'] + (Decimal(m) + z);
    }
  }

  lemma MinusScans(t: string)
    requires SkipSpace(['-'] + t) == ['-'] + t
    ensures ScanInt(['-'] + t) == Digits(t, true)
  {
    assert (['-'] + t)[1..] == t;
    hide SkipSpace, Digits;
  }

  lemma PlainScans(t: string)
    requires SkipSpace(t) == t && t != [] && IsDigit(t[0])
    ensures ScanInt(t) == Digits(t, false)
  {
    hide SkipSpace, Digits;
  }

  /** Scanning a printed number gives the number back. */
  lemma ScanOfNumber(n: int, z: string)
    requires z == [] || !IsDigit(z[0])
    ensures ScanInt(Number(n) + z) == Some(n)
  {
    var m: nat := if n < 0 then -n else n;
    var t := Decimal(m) + z;
    DigitsOfDecimal(m, z);
    NumberStart(n, z);
    NumberShape(n, m, z);
    hide Decimal, Digits, SkipSpace, Number, ScanInt;
    if n < 0 {
      MinusScans(t);
    } else {
      PlainScans(t);
    }
  }
}
