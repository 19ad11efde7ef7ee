/** Host names taken from raw packets (server/ServiceDB.cpp): the QNAME of a DNS
    query and the server_name of a TLS ClientHello. */
module DomainExtract {
  import opened Text
  import opened Frames

  const MAX_LABELS: nat := 16
  const MAX_NAME: nat := 253
  const DOT: byte := 46

  function Lower(b: byte): byte
  {
    if 65 <= b <= 90 then b + 32 else b
  }

  function LowerAll(s: seq<byte>): (r: seq<byte>)
    ensures |r| == |s|
  {
    if s == [] then [] else LowerAll(s[..|s| - 1]) + [Lower(s[|s| - 1])]
  }

  function At16(b: seq<byte>, i: nat): (n: nat)
    requires i + 1 < |b|
    ensures n < 0x1_0000
  {
    b[i] as nat * 0x100 + b[i + 1] as nat
  }

  // ---- what lies where -------------------------------------------------------------------

  /** These bytes stand at this position. */
  predicate Stands(b: seq<byte>, p: nat, w: seq<byte>)
  {
    p + |w| <= |b| && b[p..p + |w|] == w
  }

  lemma StandsSplit(b: seq<byte>, p: nat, u: seq<byte>, v: seq<byte>)
    ensures Stands(b, p, u + v) <==> Stands(b, p, u) && Stands(b, p + |u|, v)
  {
    if p + |u| + |v| <= |b| {
      var w := b[p..p + |u| + |v|];
      assert w == b[p..p + |u|] + b[p + |u|..p + |u| + |v|];
      assert (u + v)[..|u|] == u && (u + v)[|u|..] == v;
      assert w[..|u|] == b[p..p + |u|] && w[|u|..] == b[p + |u|..p + |u| + |v|];
    }
  }

  lemma StandsByte(b: seq<byte>, p: nat, w: seq<byte>, i: nat)
    requires Stands(b, p, w) && i < |w|
    ensures p + i < |b| && b[p + i] == w[i]
  {
    assert b[p..p + |w|][i] == b[p + i];
  }

  lemma StandsWord(b: seq<byte>, p: nat, w: seq<byte>, i: nat)
    requires Stands(b, p, w) && i + 1 < |w|
    ensures p + i + 1 < |b| && At16(b, p + i) == At16(w, i)
  {
    StandsByte(b, p, w, i);
    StandsByte(b, p, w, i + 1);
  }

  lemma StandsBe16(b: seq<byte>, p: nat, n: nat)
    requires n < 0x1_0000 && Stands(b, p, Be16(n))
    ensures p + 1 < |b| && At16(b, p) == n
  {
    StandsWord(b, p, Be16(n), 0);
  }

  // ---- DNS ---------------------------------------------------------------------------

  /** The dotted name read from position p on, with so many labels still allowed and
      `name` read so far. */
  function NameFrom(pkt: seq<byte>, p: nat, left: nat, name: seq<byte>): Option<seq<byte>>
    decreases left
  {
    if left == 0 then Some(name)
    else if p >= |pkt| then None
    else if pkt[p] == 0 then Some(name)
    else if p + 1 + pkt[p] > |pkt| then None
    else NameFrom(pkt, p + 1 + pkt[p], left - 1, Join(name, LowerAll(pkt[p + 1..p + 1 + pkt[p]])))
  }

  function Join(name: seq<byte>, part: seq<byte>): seq<byte>
  {
    (if name == [] then [] else name + [DOT]) + part
  }

  function DnsName(pkt: seq<byte>, l4: nat): Option<seq<byte>>
  {
    if |pkt| < l4 + 20 || At16(pkt, l4 + 2) != 53 || At16(pkt, l4 + 12) < 1 then None
    else
      match NameFrom(pkt, l4 + 20, MAX_LABELS, [])
      case None => None
      case Some(name) => if name == [] || |name| > MAX_NAME then None else Some(name)
  }

  method ExtractDnsName(pkt: seq<byte>, l4: nat) returns (out: Option<seq<byte>>)
    ensures out == DnsName(pkt, l4)
  {
    if |pkt| < l4 + 8 {
      return None;
    }
    if At16(pkt, l4 + 2) != 53 {
      return None;
    }
    var dns := l4 + 8;
    if |pkt| < dns + 12 {
      return None;
    }
    if At16(pkt, dns + 4) < 1 {
      return None;
    }
    var p: nat := dns + 12;
    var name: seq<byte> := [];
    var guard := 0;
    while guard < MAX_LABELS
      invariant guard <= MAX_LABELS
      invariant NameFrom(pkt, l4 + 20, MAX_LABELS, []) == NameFrom(pkt, p, MAX_LABELS - guard, name)
    {
      if p >= |pkt| {
        return None;
      }
      var n := pkt[p];
      if n == 0 {
        break;
      }
      if p + 1 + n > |pkt| {
        return None;
      }
      var lowered := CopyLower(pkt, p + 1, n);
      name := Join(name, lowered);
      p := p + 1 + n;
      guard := guard + 1;
    }
    if name == [] || |name| > MAX_NAME {
      return None;
    }
    return Some(name);
  }

  method CopyLower(b: seq<byte>, at: nat, n: nat) returns (r: seq<byte>)
    requires at + n <= |b|
    ensures r == LowerAll(b[at..at + n])
  {
    r := [];
    for k := 0 to n
      invariant r == LowerAll(b[at..at + k])
    {
      assert b[at..at + k + 1][..k] == b[at..at + k];
      r := r + [Lower(b[at + k])];
    }
  }

  /** A name on the wire: each label behind its length, a zero at the end. */
  function WireName(labels: seq<seq<byte>>): seq<byte>
    requires Labels(labels)
    decreases |labels|
  {
    if labels == [] then [0] else [|labels[0]|] + labels[0] + WireName(labels[1..])
  }

  /** The lower-cased dotted name of some labels, appended to what was there. */
  function Dotted(name: seq<byte>, labels: seq<seq<byte>>): seq<byte>
    decreases |labels|
  {
    if labels == [] then name else Dotted(Join(name, LowerAll(labels[0])), labels[1..])
  }

  predicate Labels(labels: seq<seq<byte>>)
  {
    forall i :: 0 <= i < |labels| ==> 1 <= |labels[i]| <= 255
  }

  lemma {:induction false} NameOfWire(pkt: seq<byte>, p: nat, labels: seq<seq<byte>>, left: nat, name: seq<byte>)
    requires Labels(labels) && Stands(pkt, p, WireName(labels))
    ensures NameFrom(pkt, p, left, name) == Some(Dotted(name, First(labels, left)))
    decreases |labels|
  {
    hide Stands, LowerAll, Join, WireName, First, NameFrom, Dotted;
    if left == 0 || labels == [] {
      NameEnds(pkt, p, labels, left, name);
    } else {
      var first := labels[0];
      FirstLabelStands(pkt, p, labels);
      NameStep(pkt, p, first, left, name);
      NameOfWire(pkt, p + 1 + |first|, labels[1..], left - 1, Join(name, LowerAll(first)));
      DottedStep(name, labels, left);
    }
  }

  lemma NameEnds(pkt: seq<byte>, p: nat, labels: seq<seq<byte>>, left: nat, name: seq<byte>)
    requires Labels(labels) && Stands(pkt, p, WireName(labels)) && (left == 0 || labels == [])
    ensures NameFrom(pkt, p, left, name) == Some(name) && Dotted(name, First(labels, left)) == name
  {
    assert First(labels, left) == [];
    if labels == [] {
      StandsByte(pkt, p, [0], 0);
    }
    hide LowerAll, Join, First;
  }

  lemma DottedStep(name: seq<byte>, labels: seq<seq<byte>>, left: nat)
    requires labels != [] && left > 0
    ensures Dotted(name, First(labels, left)) == Dotted(Join(name, LowerAll(labels[0])), First(labels[1..], left - 1))
  {
    hide LowerAll, Join, First;
    FirstStep(labels, left);
  }

  lemma NameStep(pkt: seq<byte>, p: nat, first: seq<byte>, left: nat, name: seq<byte>)
    requires 0 < left && 0 < |first| && p + 1 + |first| <= |pkt|
    requires pkt[p] == |first| && pkt[p + 1..p + 1 + |first|] == first
    ensures NameFrom(pkt, p, left, name) == NameFrom(pkt, p + 1 + |first|, left - 1, Join(name, LowerAll(first)))
  {
    hide LowerAll, Join;
  }

  lemma FirstStep(labels: seq<seq<byte>>, n: nat)
    requires labels != [] && n > 0
    ensures First(labels, n) != [] && First(labels, n)[0] == labels[0]
    ensures First(labels, n)[1..] == First(labels[1..], n - 1)
  {
  }

  lemma FirstLabelStands(pkt: seq<byte>, p: nat, labels: seq<seq<byte>>)
    requires Labels(labels) && labels != [] && Stands(pkt, p, WireName(labels))
    ensures var first := labels[0];
            && p + 1 + |first| <= |pkt| && pkt[p] == |first| && pkt[p + 1..p + 1 + |first|] == first
            && Stands(pkt, p + 1 + |first|, WireName(labels[1..]))
  {
    hide Stands;
    var first := labels[0];
    StandsSplit(pkt, p, [|first|] + first, WireName(labels[1..]));
    StandsSplit(pkt, p, [|first|], first);
    StandsByte(pkt, p, [|first|], 0);
    LabelStands(pkt, p + 1, first);
  }

  lemma LabelStands(pkt: seq<byte>, p: nat, w: seq<byte>)
    requires Stands(pkt, p, w)
    ensures p + |w| <= |pkt| && pkt[p..p + |w|] == w
  {
  }

  /** The first labels, at most so many. */
  function First(labels: seq<seq<byte>>, n: nat): seq<seq<byte>>
  {
    if |labels| <= n then labels else labels[..n]
  }

  /** An IPv4 packet: the header with its options, then the upper layer. */
  predicate Ipv4(ip: seq<byte>, proto: byte)
  {
    |ip| >= 20 && ip[0] / 16 == 4 && |ip| == ip[0] % 16 * 4 && ip[9] == proto
  }

  /** A UDP header to port 53 and a DNS header with a question. */
  predicate DnsHeaders(udp: seq<byte>, dns: seq<byte>)
  {
    |udp| == 8 && |dns| == 12 && At16(udp, 2) == 53 && At16(dns, 4) >= 1
  }

  // ---- TLS ---------------------------------------------------------------------------

  /** The host named by the first server_name extension between p and end. */
  function HostFrom(t: seq<byte>, p: nat, end: nat): Option<seq<byte>>
    requires p <= end <= |t|
    decreases end - p
  {
    if p + 4 > end then None
    else
      var el := At16(t, p + 2);
      if el > end - (p + 4) then None
      else if At16(t, p) == 0 && el >= 5 then
        if t[p + 6] != 0 then None
        else
          var hl := At16(t, p + 7);
          if 0 < hl && 5 + hl <= el && p + 9 + hl <= end then Some(LowerAll(t[p + 9..p + 9 + hl])) else None
      else HostFrom(t, p + 4 + el, end)
  }

  /** Where the extensions of a ClientHello record start and end, if it is one. */
  function Extensions(t: seq<byte>): (r: Option<(nat, nat)>)
    ensures r.Some? ==> r.value.0 <= r.value.1 <= |t|
  {
    if |t| < 5 || t[0] != 0x16 || t[1] != 0x03 || |t| < 9 || t[5] != 0x01 || |t| < 44 then None
    else
      var p := 44 + t[43] as nat;
      if p + 2 > |t| then None
      else
        var q := p + 2 + At16(t, p);
        if q + 1 > |t| then None
        else
          var e := q + 1 + t[q] as nat;
          if e + 2 > |t| then None
          else Some((e + 2, if e + 2 + At16(t, e) > |t| then |t| else e + 2 + At16(t, e)))
  }

  function Sni(pkt: seq<byte>, l4: nat): Option<seq<byte>>
  {
    if |pkt| < l4 + 20 then None
    else
      var doff := pkt[l4 + 12] / 16 * 4;
      if doff < 20 || |pkt| < l4 + doff + 1 then None
      else
        var t := pkt[l4 + doff..];
        match Extensions(t)
        case None => None
        case Some(span) => HostFrom(t, span.0, span.1)
  }

  method ExtractSni(pkt: seq<byte>, l4: nat) returns (out: Option<seq<byte>>)
    ensures out == Sni(pkt, l4)
  {
    if |pkt| < l4 + 20 {
      return None;
    }
    var doff := pkt[l4 + 12] / 16 * 4;
    if doff < 20 || |pkt| < l4 + doff + 1 {
      return None;
    }
    out := HostOfRecord(pkt[l4 + doff..]);
  }

  method HostOfRecord(t: seq<byte>) returns (out: Option<seq<byte>>)
    ensures out == match Extensions(t) case None => None case Some(span) => HostFrom(t, span.0, span.1)
  {
    var tlen := |t|;
    if tlen < 5 || t[0] != 0x16 || t[1] != 0x03 {
      return None;
    }
    var hs: nat := 5;
    if hs + 4 > tlen || t[hs] != 0x01 {
      return None;
    }
    var p: nat := hs + 4 + 2 + 32;
    if p + 1 > tlen {
      return None;
    }
    p := p + 1 + t[p];
    if p + 2 > tlen {
      return None;
    }
    p := p + 2 + At16(t, p);
    if p + 1 > tlen {
      return None;
    }
    p := p + 1 + t[p];
    if p + 2 > tlen {
      return None;
    }
    var extTotal := At16(t, p);
    p := p + 2;
    var extEnd := if p + extTotal > tlen then tlen else p + extTotal;
    out := ScanExtensions(t, p, extEnd);
  }

  method ScanExtensions(t: seq<byte>, start: nat, extEnd: nat) returns (out: Option<seq<byte>>)
    requires start <= extEnd <= |t|
    ensures out == HostFrom(t, start, extEnd)
  {
    hide LowerAll;
    var p: nat := start;
    while p + 4 <= extEnd
      invariant p <= extEnd
      invariant HostFrom(t, start, extEnd) == HostFrom(t, p, extEnd)
      decreases extEnd - p
    {
      var et := At16(t, p);
      var el := At16(t, p + 2);
      p := p + 4;
      if el > extEnd - p {
        return None;
      }
      if et == 0 && el >= 5 {
        if t[p + 2] == 0 {
          var hl := At16(t, p + 3);
          if hl > 0 && el >= 5 + hl && p + 5 + hl <= extEnd {
            var host := CopyLower(t, p + 5, hl);
            return Some(host);
          }
        }
        return None;
      }
      p := p + el;
    }
    return None;
  }

  /** An extension: type, length, data. */
  datatype Extension = Extension(typ: nat, data: seq<byte>)

  predicate Fits(e: Extension)
  {
    e.typ < 0x1_0000 && |e.data| < 0x1_0000
  }

  function WireExt(e: Extension): (w: seq<byte>)
    requires Fits(e)
    ensures |w| == 4 + |e.data|
  {
    Be16(e.typ) + Be16(|e.data|) + e.data
  }

  function WireExts(es: seq<Extension>): seq<byte>
    requires forall i :: 0 <= i < |es| ==> Fits(es[i])
    decreases |es|
  {
    if es == [] then [] else WireExt(es[0]) + WireExts(es[1..])
  }

  /** server_name with a host_name first; more names may follow. */
  function ServerName(host: seq<byte>, more: seq<byte>): (e: Extension)
    requires 0 < |host| && 5 + |host| + |more| < 0x1_0000
    ensures Fits(e)
  {
    Extension(0, Be16(3 + |host| + |more|) + [0] + Be16(|host|) + host + more)
  }

  /** The handshake up to its extensions: lengths, version, random, session id,
      cipher suites, compression methods. */
  datatype Hello = Hello(record: seq<byte>, handshake: seq<byte>, versionAndRandom: seq<byte>,
                         session: seq<byte>, suites: seq<byte>, methods: seq<byte>)

  predicate IsHello(h: Hello)
  {
    && |h.record| == 5 && h.record[0] == 0x16 && h.record[1] == 0x03
    && |h.handshake| == 4 && h.handshake[0] == 0x01 && |h.versionAndRandom| == 34
    && |h.session| <= 32 && |h.suites| < 0x1_0000 && |h.methods| < 0x100
  }

  function WireHello(h: Hello): (w: seq<byte>)
    requires IsHello(h)
    ensures |w| == 48 + |h.session| + |h.suites| + |h.methods| - 1
  {
    h.record + h.handshake + h.versionAndRandom + [|h.session|] + h.session
    + Be16(|h.suites|) + h.suites + [|h.methods|] + h.methods
  }

  // ---- any packet --------------------------------------------------------------------

  function Domain(pkt: seq<byte>): Option<seq<byte>>
  {
    if |pkt| < 20 || pkt[0] / 16 != 4 then None
    else
      var ihl := pkt[0] % 16 * 4;
      if ihl < 20 || |pkt| < ihl then None
      else if pkt[9] == 17 then DnsName(pkt, ihl)
      else if pkt[9] == 6 then Sni(pkt, ihl)
      else None
  }

  /** Whatever the bytes, no index leaves the packet. */
  method ExtractDomain(pkt: seq<byte>) returns (out: Option<seq<byte>>)
    ensures out == Domain(pkt)
  {
    if |pkt| < 20 || pkt[0] / 16 != 4 {
      return None;
    }
    var ihl := pkt[0] % 16 * 4;
    if ihl < 20 || |pkt| < ihl {
      return None;
    }
    if pkt[9] == 17 {
      out := ExtractDnsName(pkt, ihl);
    } else if pkt[9] == 6 {
      out := ExtractSni(pkt, ihl);
    } else {
      out := None;
    }
  }

  lemma {:induction false} LowerAllAt(s: seq<byte>, i: nat)
    requires i < |s|
    ensures LowerAll(s)[i] == Lower(s[i])
  {
    if i < |s| - 1 {
      LowerAllAt(s[..|s| - 1], i);
    }
  }

  /** What a DNS query yields: the lower-cased dotted name of its first sixteen
      labels, if that is at most 253 characters long; the whole name, then, exactly
      when there are no more labels than that. */
  lemma DnsQueryNamed(pkt: seq<byte>, ip: seq<byte>, udp: seq<byte>, dns: seq<byte>, labels: seq<seq<byte>>)
    requires Ipv4(ip, 17) && DnsHeaders(udp, dns) && Labels(labels) && labels != []
    requires Stands(pkt, 0, ip + (udp + (dns + WireName(labels))))
    ensures var name := Dotted([], First(labels, MAX_LABELS));
            Domain(pkt) == if |name| <= MAX_NAME then Some(name) else None
    ensures Dotted([], First(labels, MAX_LABELS)) == Dotted([], labels) <==> |labels| <= MAX_LABELS
  {
    FirstIsShorter(labels, MAX_LABELS);
    hide Stands, WireName, NameFrom, Dotted, DnsName, First;
    UdpPacket(pkt, ip, udp + (dns + WireName(labels)));
    QueryNamed(pkt, |ip|, udp, dns, labels);
  }

  lemma UdpPacket(pkt: seq<byte>, ip: seq<byte>, rest: seq<byte>)
    requires Ipv4(ip, 17) && Stands(pkt, 0, ip + rest)
    ensures Domain(pkt) == DnsName(pkt, |ip|) && Stands(pkt, |ip|, rest)
  {
    hide Stands, DnsName, Sni;
    StandsSplit(pkt, 0, ip, rest);
    StandsByte(pkt, 0, ip, 0);
    StandsByte(pkt, 0, ip, 9);
    LabelStands(pkt, 0, ip);
  }

  lemma QueryNamed(pkt: seq<byte>, l4: nat, udp: seq<byte>, dns: seq<byte>, labels: seq<seq<byte>>)
    requires DnsHeaders(udp, dns) && Labels(labels) && labels != []
    requires Stands(pkt, l4, udp + (dns + WireName(labels)))
    ensures var name := Dotted([], First(labels, MAX_LABELS));
            DnsName(pkt, l4) == if |name| <= MAX_NAME then Some(name) else None
  {
    hide Stands, WireName, NameFrom, Dotted, First;
    StandsSplit(pkt, l4, udp, dns + WireName(labels));
    StandsSplit(pkt, l4 + 8, dns, WireName(labels));
    StandsWord(pkt, l4, udp, 2);
    StandsWord(pkt, l4 + 8, dns, 4);
    StandsByte(pkt, l4 + 8, dns, 11);
    NameOfWire(pkt, l4 + 20, labels, MAX_LABELS, []);
    FirstIsLabels(labels);
    DottedIsSome([], First(labels, MAX_LABELS));
  }

  lemma FirstIsLabels(labels: seq<seq<byte>>)
    requires Labels(labels) && labels != []
    ensures Labels(First(labels, MAX_LABELS)) && First(labels, MAX_LABELS) != []
  {
  }

  lemma {:induction false} DottedSplit(name: seq<byte>, a: seq<seq<byte>>, b: seq<seq<byte>>)
    ensures Dotted(name, a + b) == Dotted(Dotted(name, a), b)
    decreases |a|
  {
    if a == [] {
      assert a + b == b;
    } else {
      assert (a + b)[0] == a[0] && (a + b)[1..] == a[1..] + b;
      DottedSplit(Join(name, LowerAll(a[0])), a[1..], b);
    }
  }

  /** A name cut off is another name. */
  lemma FirstIsShorter(labels: seq<seq<byte>>, n: nat)
    requires Labels(labels)
    ensures Dotted([], First(labels, n)) == Dotted([], labels) <==> |labels| <= n
  {
    if |labels| > n {
      assert labels == labels[..n] + labels[n..];
      DottedSplit([], labels[..n], labels[n..]);
      DottedIsSome(Dotted([], labels[..n]), labels[n..]);
    }
  }

  lemma {:induction false} DottedIsSome(name: seq<byte>, labels: seq<seq<byte>>)
    requires Labels(labels)
    ensures |Dotted(name, labels)| >= |name| + |labels|
    decreases |labels|
  {
    if labels != [] {
      DottedIsSome(Join(name, LowerAll(labels[0])), labels[1..]);
    }
  }

  /** A TCP header with its options. */
  predicate Tcp(tcp: seq<byte>)
  {
    |tcp| >= 20 && |tcp| == tcp[12] / 16 * 4
  }

  /** A ClientHello record naming a host after other extensions, with more of them
      behind. */
  function Record(h: Hello, earlier: seq<Extension>, host: seq<byte>, more: seq<byte>, later: seq<byte>): seq<byte>
    requires IsHello(h) && (forall i :: 0 <= i < |earlier| ==> Fits(earlier[i]))
    requires 0 < |host| && 5 + |host| + |more| < 0x1_0000
    requires |WireExts(earlier)| + 9 + |host| + |more| + |later| < 0x1_0000
  {
    WireHello(h) + (Be16(|WireExts(earlier)| + 9 + |host| + |more| + |later|)
                    + (WireExts(earlier) + (WireExt(ServerName(host, more)) + later)))
  }

  lemma {:induction false} HostAfter(t: seq<byte>, p: nat, earlier: seq<Extension>, host: seq<byte>, more: seq<byte>, end: nat)
    requires forall i :: 0 <= i < |earlier| ==> Fits(earlier[i]) && earlier[i].typ != 0
    requires 0 < |host| && 5 + |host| + |more| < 0x1_0000
    requires Stands(t, p, WireExts(earlier)) && Stands(t, p + |WireExts(earlier)|, WireExt(ServerName(host, more)))
    requires p + |WireExts(earlier)| + 9 + |host| + |more| <= end <= |t|
    ensures HostFrom(t, p, end) == Some(LowerAll(host))
    decreases |earlier|
  {
    hide Stands, LowerAll, ServerName, WireExt;
    if earlier == [] {
      ServerNameAt(t, p, host, more);
    } else {
      var e := earlier[0];
      StandsSplit(t, p, WireExt(e), WireExts(earlier[1..]));
      ExtensionAt(t, p, e);
      HostAfter(t, p + 4 + |e.data|, earlier[1..], host, more, end);
    }
  }

  lemma ExtensionAt(t: seq<byte>, p: nat, e: Extension)
    requires Fits(e) && Stands(t, p, WireExt(e))
    ensures p + 4 + |e.data| <= |t| && At16(t, p) == e.typ && At16(t, p + 2) == |e.data|
    ensures Stands(t, p + 4, e.data)
  {
    var w := Be16(e.typ) + Be16(|e.data|);
    assert WireExt(e) == w + e.data;
    StandsSplit(t, p, w, e.data);
    StandsSplit(t, p, Be16(e.typ), Be16(|e.data|));
    StandsBe16(t, p, e.typ);
    StandsBe16(t, p + 2, |e.data|);
  }

  lemma ServerNameAt(t: seq<byte>, p: nat, host: seq<byte>, more: seq<byte>)
    requires 0 < |host| && 5 + |host| + |more| < 0x1_0000
    requires Stands(t, p, WireExt(ServerName(host, more)))
    ensures p + 9 + |host| + |more| <= |t|
    ensures At16(t, p) == 0 && At16(t, p + 2) == 5 + |host| + |more|
    ensures t[p + 6] == 0 && At16(t, p + 7) == |host| && t[p + 9..p + 9 + |host|] == host
  {
    var e := ServerName(host, more);
    ExtensionAt(t, p, e);
    hide Stands;
    var front := Be16(3 + |host| + |more|) + [0];
    var rest := Be16(|host|) + (host + more);
    assert e.data == front + rest;
    StandsSplit(t, p + 4, front, rest);
    StandsByte(t, p + 4, front, 2);
    StandsSplit(t, p + 7, Be16(|host|), host + more);
    StandsBe16(t, p + 7, |host|);
    StandsSplit(t, p + 9, host, more);
    LabelStands(t, p + 9, host);
  }

  lemma HelloFieldsStand(t: seq<byte>, h: Hello)
    requires IsHello(h) && Stands(t, 0, WireHello(h))
    ensures |t| >= 44 && t[0] == 0x16 && t[1] == 0x03 && t[5] == 0x01 && t[43] == |h.session|
    ensures var p := 44 + |h.session|;
            && p + 1 < |t| && At16(t, p) == |h.suites|
            && p + 2 + |h.suites| < |t| && t[p + 2 + |h.suites|] == |h.methods|
            && |WireHello(h)| == p + 3 + |h.suites| + |h.methods|
  {
    hide Stands;
    var a := h.record + h.handshake + h.versionAndRandom + [|h.session|];
    var b := Be16(|h.suites|) + (h.suites + ([|h.methods|] + h.methods));
    assert WireHello(h) == a + (h.session + b);
    StandsSplit(t, 0, a, h.session + b);
    StandsByte(t, 0, a, 0);
    StandsByte(t, 0, a, 1);
    StandsByte(t, 0, a, 5);
    StandsByte(t, 0, a, 43);
    var p := 44 + |h.session|;
    StandsSplit(t, 44, h.session, b);
    StandsSplit(t, p, Be16(|h.suites|), h.suites + ([|h.methods|] + h.methods));
    StandsBe16(t, p, |h.suites|);
    StandsSplit(t, p + 2, h.suites, [|h.methods|] + h.methods);
    StandsByte(t, p + 2 + |h.suites|, [|h.methods|] + h.methods, 0);
  }

  /** The extensions of a record start behind the hello and their length. */
  lemma ExtensionsAt(t: seq<byte>, h: Hello, n: nat)
    requires IsHello(h) && n < 0x1_0000 && Stands(t, 0, WireHello(h)) && Stands(t, |WireHello(h)|, Be16(n))
    requires |WireHello(h)| + 2 + n <= |t|
    ensures Extensions(t) == Some((|WireHello(h)| + 2, |WireHello(h)| + 2 + n))
  {
    hide Stands, WireHello;
    HelloFieldsStand(t, h);
    StandsBe16(t, |WireHello(h)|, n);
  }

  /** On any ClientHello that fits one segment, the lower-cased host is found,
      whatever session id, cipher suites and earlier extensions it carries and
      whatever follows. */
  lemma ClientHelloNamed(pkt: seq<byte>, ip: seq<byte>, tcp: seq<byte>, h: Hello, earlier: seq<Extension>,
                         host: seq<byte>, more: seq<byte>, later: seq<byte>)
    requires Ipv4(ip, 6) && Tcp(tcp) && IsHello(h)
    requires forall i :: 0 <= i < |earlier| ==> Fits(earlier[i]) && earlier[i].typ != 0
    requires 0 < |host| && 5 + |host| + |more| < 0x1_0000
    requires |WireExts(earlier)| + 9 + |host| + |more| + |later| < 0x1_0000
    requires Stands(pkt, 0, ip + (tcp + Record(h, earlier, host, more, later)))
    ensures Domain(pkt) == Some(LowerAll(host))
  {
    hide Stands, Record, DnsName, Sni, WireExts;
    var r := Record(h, earlier, host, more, later);
    TcpPacket(pkt, ip, tcp, r);
    SegmentNamed(pkt, |ip|, tcp, h, earlier, host, more, later);
  }

  lemma TcpPacket(pkt: seq<byte>, ip: seq<byte>, tcp: seq<byte>, r: seq<byte>)
    requires Ipv4(ip, 6) && Tcp(tcp) && Stands(pkt, 0, ip + (tcp + r))
    ensures |pkt| >= |ip| && Domain(pkt) == Sni(pkt, |ip|)
    ensures Stands(pkt, |ip|, tcp) && Stands(pkt, |ip| + |tcp|, r)
  {
    hide Stands, DnsName, Sni;
    StandsSplit(pkt, 0, ip, tcp + r);
    StandsSplit(pkt, |ip|, tcp, r);
    StandsByte(pkt, 0, ip, 0);
    StandsByte(pkt, 0, ip, 9);
    LabelStands(pkt, 0, ip);
  }

  lemma SegmentNamed(pkt: seq<byte>, l4: nat, tcp: seq<byte>, h: Hello, earlier: seq<Extension>,
                     host: seq<byte>, more: seq<byte>, later: seq<byte>)
    requires Tcp(tcp) && IsHello(h)
    requires forall i :: 0 <= i < |earlier| ==> Fits(earlier[i]) && earlier[i].typ != 0
    requires 0 < |host| && 5 + |host| + |more| < 0x1_0000
    requires |WireExts(earlier)| + 9 + |host| + |more| + |later| < 0x1_0000
    requires Stands(pkt, l4, tcp) && Stands(pkt, l4 + |tcp|, Record(h, earlier, host, more, later))
    ensures Sni(pkt, l4) == Some(LowerAll(host))
  {
    hide Stands, Extensions, HostFrom, LowerAll, Record, WireExts;
    LabelStands(pkt, l4, tcp);
    StandsByte(pkt, l4, tcp, 12);
    RecordNamed(pkt, l4 + |tcp|, h, earlier, host, more, later);
  }

  lemma StandsFrom(b: seq<byte>, at: nat, w: seq<byte>)
    requires Stands(b, at, w)
    ensures at <= |b| && Stands(b[at..], 0, w)
  {
    assert b[at..][0..|w|] == b[at..at + |w|];
  }

  lemma RecordNamed(pkt: seq<byte>, at: nat, h: Hello, earlier: seq<Extension>,
                    host: seq<byte>, more: seq<byte>, later: seq<byte>)
    requires IsHello(h)
    requires forall i :: 0 <= i < |earlier| ==> Fits(earlier[i]) && earlier[i].typ != 0
    requires 0 < |host| && 5 + |host| + |more| < 0x1_0000
    requires |WireExts(earlier)| + 9 + |host| + |more| + |later| < 0x1_0000
    requires Stands(pkt, at, Record(h, earlier, host, more, later))
    ensures at < |pkt| && Extensions(pkt[at..]).Some?
    ensures var span := Extensions(pkt[at..]).value; HostFrom(pkt[at..], span.0, span.1) == Some(LowerAll(host))
  {
    hide Stands, Extensions, HostFrom, LowerAll, Record, WireHello, WireExts;
    StandsFrom(pkt, at, Record(h, earlier, host, more, later));
    var t := pkt[at..];
    var n := |WireExts(earlier)| + 9 + |host| + |more| + |later|;
    RecordParts(t, h, earlier, host, more, later);
    ExtensionsAt(t, h, n);
    HostAfter(t, |WireHello(h)| + 2, earlier, host, more, |WireHello(h)| + 2 + n);
  }

  lemma RecordParts(t: seq<byte>, h: Hello, earlier: seq<Extension>, host: seq<byte>, more: seq<byte>, later: seq<byte>)
    requires IsHello(h) && (forall i :: 0 <= i < |earlier| ==> Fits(earlier[i]))
    requires 0 < |host| && 5 + |host| + |more| < 0x1_0000
    requires |WireExts(earlier)| + 9 + |host| + |more| + |later| < 0x1_0000
    requires Stands(t, 0, Record(h, earlier, host, more, later))
    ensures var n := |WireExts(earlier)| + 9 + |host| + |more| + |later|;
            var e := |WireHello(h)| + 2;
            && Stands(t, 0, WireHello(h)) && Stands(t, |WireHello(h)|, Be16(n)) && Stands(t, e, WireExts(earlier))
            && Stands(t, e + |WireExts(earlier)|, WireExt(ServerName(host, more)))
            && e + n <= |t|
  {
    hide Stands, WireHello, WireExts, WireExt, ServerName;
    var n := |WireExts(earlier)| + 9 + |host| + |more| + |later|;
    var e := |WireHello(h)| + 2;
    var sn := WireExt(ServerName(host, more));
    ServerNameLength(host, more);
    StandsSplit(t, 0, WireHello(h), Be16(n) + (WireExts(earlier) + (sn + later)));
    StandsSplit(t, |WireHello(h)|, Be16(n), WireExts(earlier) + (sn + later));
    StandsSplit(t, e, WireExts(earlier), sn + later);
    StandsSplit(t, e + |WireExts(earlier)|, sn, later);
    LabelStands(t, e + |WireExts(earlier)| + |sn|, later);
  }

  lemma ServerNameLength(host: seq<byte>, more: seq<byte>)
    requires 0 < |host| && 5 + |host| + |more| < 0x1_0000
    ensures |WireExt(ServerName(host, more))| == 9 + |host| + |more|
  {
  }
}
