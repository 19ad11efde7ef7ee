/** Tunnel frames on a byte stream (src/tunnel_protoco.h): a 12-byte header and at
    most 1429 bytes of payload. What a receiver makes of a stream is a function of
    the bytes alone, however they were chunked. */
module Frames {
  import opened Text

  type byte = x: nat | x < 256

  const HEADER: nat := 12
  const MAX_PAYLOAD: nat := 1429
  const MAX_FRAME: nat := 1441

  /** Kmagic as a little-endian host stores it. */
  const MAGIC: seq<byte> := [0x4E, 0x50, 0x56, 0x4D]

  const V_UDP: byte := 1
  const V_TCP: byte := 2

  datatype Header = Header(version: byte, typ: byte, seqNo: nat)

  function Be16(n: nat): seq<byte>
    requires n < 0x1_0000
  {
    [n / 0x100, n % 0x100]
  }

  function Be32(n: nat): seq<byte>
    requires n < 0x1_0000_0000
  {
    [n / 0x100_0000, n / 0x1_0000 % 0x100, n / 0x100 % 0x100, n % 0x100]
  }

  /** One frame as both send_packet functions lay it out. */
  function Encode(h: Header, payload: seq<byte>): seq<byte>
    requires h.seqNo < 0x1_0000_0000 && |payload| <= MAX_PAYLOAD
  {
    MAGIC + [h.version, h.typ] + Be16(|payload|) + Be32(h.seqNo) + payload
  }

  function PayloadLen(b: seq<byte>): nat
    requires |b| >= HEADER
  {
    b[6] as nat * 0x100 + b[7] as nat
  }

  /** What the front of a buffer amounts to. */
  datatype Front = Need | Bad | Got(frame: seq<byte>, rest: seq<byte>)

  /** The receiver's look at its buffer. The client also checks the version byte;
      the server leaves that to the session layer. */
  function NextFrame(b: seq<byte>, version: Option<byte>): Front
  {
    if |b| < HEADER then Need
    else if b[..4] != MAGIC || (version.Some? && b[4] != version.value) then Bad
    else if PayloadLen(b) > MAX_PAYLOAD then Bad
    else if |b| < HEADER + PayloadLen(b) then Need
    else Got(b[..HEADER + PayloadLen(b)], b[HEADER + PayloadLen(b)..])
  }

  /** The receivers' checks, in their order: header complete, magic and version,
      length bound, payload complete. 1: a frame of n bytes, 0: wait, -1: garbage. */
  method Inspect(base: seq<byte>, version: Option<byte>) returns (code: int, n: nat)
    ensures match NextFrame(base, version)
            case Got(f, rest) => code == 1 && HEADER <= n <= |base| && f == base[..n] && rest == base[n..]
            case Need => code == 0
            case Bad => code == -1
  {
    if |base| < HEADER {
      return 0, 0;
    }
    if base[..4] != MAGIC || (version.Some? && base[4] != version.value) {
      return -1, 0;
    }
    var payLen := PayloadLen(base);
    if payLen > MAX_PAYLOAD {
      return -1, 0;
    }
    if |base| < HEADER + payLen {
      return 0, 0;
    }
    return 1, HEADER + payLen;
  }

  predicate WellFormed(f: seq<byte>, version: Option<byte>)
  {
    NextFrame(f, version) == Got(f, [])
  }

  predicate AllWellFormed(fs: seq<seq<byte>>, version: Option<byte>)
  {
    forall i :: 0 <= i < |fs| ==> WellFormed(fs[i], version)
  }

  function Concat(fs: seq<seq<byte>>): seq<byte>
  {
    if fs == [] then [] else Concat(fs[..|fs| - 1]) + fs[|fs| - 1]
  }

  lemma EncodeIsWellFormed(h: Header, payload: seq<byte>)
    requires h.seqNo < 0x1_0000_0000 && |payload| <= MAX_PAYLOAD
    ensures WellFormed(Encode(h, payload), Some(h.version))
    ensures WellFormed(Encode(h, payload), None)
    ensures |Encode(h, payload)| <= MAX_FRAME
    ensures Encode(h, payload)[HEADER..] == payload
  {
    var f := Encode(h, payload);
    assert f[..4] == MAGIC && f[4] == h.version;
    assert f[6] == |payload| / 0x100 && f[7] == |payload| % 0x100;
    assert PayloadLen(f) == |payload|;
  }

  lemma ConcatAppend(fs: seq<seq<byte>>, f: seq<byte>)
    ensures Concat(fs + [f]) == Concat(fs) + f
  {
    assert (fs + [f])[..|fs|] == fs;
  }

  lemma {:induction false} ConcatSplit(fs: seq<seq<byte>>, gs: seq<seq<byte>>)
    ensures Concat(fs + gs) == Concat(fs) + Concat(gs)
  {
    if gs == [] {
      assert fs + gs == fs;
    } else {
      var front, g := gs[..|gs| - 1], gs[|gs| - 1];
      ConcatSplit(fs, front);
      assert fs + gs == (fs + front) + [g];
      ConcatAppend(fs + front, g);
      assert Concat(fs) + (Concat(front) + g) == (Concat(fs) + Concat(front)) + g;
    }
  }

  /** A buffer starts with a frame exactly when some header and payload lay out its
      beginning. */
  lemma GotIff(b: seq<byte>, version: Option<byte>)
    ensures NextFrame(b, version).Got? <==>
              exists h: Header, payload: seq<byte> :: Layable(h, payload, version) && Encode(h, payload) <= b
  {
    if NextFrame(b, version).Got? {
      var n := PayloadLen(b);
      var payload := b[HEADER..HEADER + n];
      var seqNo := Of32(b[8], b[9], b[10], b[11]);
      var h := Header(b[4], b[5], seqNo);
      Four(b[8], b[9], b[10], b[11]);
      assert b[..HEADER + n] == Encode(h, payload);
      assert Layable(h, payload, version);
    }
    if h: Header, payload: seq<byte> :| Layable(h, payload, version) && Encode(h, payload) <= b {
      EncodeIsWellFormed(h, payload);
      var f := Encode(h, payload);
      assert b == f + b[|f|..];
      assert WellFormed(f, version);
      NextFrameExtends(f, b[|f|..], version);
    }
  }

  predicate Layable(h: Header, payload: seq<byte>, version: Option<byte>)
  {
    h.seqNo < 0x1_0000_0000 && |payload| <= MAX_PAYLOAD && (version.Some? ==> version.value == h.version)
  }

  function Of32(a: byte, b: byte, c: byte, d: byte): nat
  {
    ((a * 0x100 + b) * 0x100 + c) * 0x100 + d
  }

  lemma Four(a: byte, b: byte, c: byte, d: byte)
    ensures Of32(a, b, c, d) < 0x1_0000_0000 && Be32(Of32(a, b, c, d)) == [a, b, c, d]
  {
    var n1 := a * 0x100 + b;
    var n2 := n1 * 0x100 + c;
    var n := n2 * 0x100 + d;
    LowByte(a, b);
    LowByte(n1, c);
    LowByte(n2, d);
    ByBytes(n);
    assert n / 0x100 == n2 && n2 / 0x100 == n1 && n1 / 0x100 == a;
  }

  lemma LowByte(hi: nat, low: byte)
    ensures (hi * 0x100 + low) / 0x100 == hi && (hi * 0x100 + low) % 0x100 == low
  {
  }

  lemma ByBytes(n: nat)
    ensures n / 0x1_0000 == n / 0x100 / 0x100 && n / 0x100_0000 == n / 0x100 / 0x100 / 0x100
  {
  }

  /** It is garbage exactly when a whole header is there and nothing that may follow
      makes it a frame. */
  lemma BadIff(b: seq<byte>, version: Option<byte>)
    ensures NextFrame(b, version).Bad? <==> |b| >= HEADER && forall more :: !NextFrame(b + more, version).Got?
  {
    if NextFrame(b, version).Bad? {
      forall more
        ensures !NextFrame(b + more, version).Got?
      {
        assert (b + more)[..4] == b[..4];
      }
    } else if |b| >= HEADER {
      var more: seq<byte> := seq(MAX_PAYLOAD, i => 0);
      assert (b + more)[..4] == b[..4];
      assert NextFrame(b + more, version).Got?;
    }
  }

  /** A frame once complete stays the same frame, whatever follows it. */
  lemma NextFrameExtends(b: seq<byte>, more: seq<byte>, version: Option<byte>)
    requires NextFrame(b, version).Got?
    ensures NextFrame(b + more, version)
            == Got(NextFrame(b, version).frame, NextFrame(b, version).rest + more)
    ensures b == NextFrame(b, version).frame + NextFrame(b, version).rest
    ensures WellFormed(NextFrame(b, version).frame, version)
  {
    var n := HEADER + PayloadLen(b);
    assert (b + more)[..4] == b[..4];
    assert (b + more)[..n] == b[..n];
    assert (b + more)[n..] == b[n..] + more;
    assert b[..n][..4] == b[..4] && b[..n][n..] == [] && b[..n][..n] == b[..n];
  }

  /** Two well-formed readings of a stream agree: one that left bytes unread
      found a prefix of the frames. */
  lemma {:induction false} ReadingsAgree(fs: seq<seq<byte>>, gs: seq<seq<byte>>, left: seq<byte>, version: Option<byte>)
    requires AllWellFormed(fs, version) && AllWellFormed(gs, version)
    requires Concat(gs) + left <= Concat(fs)
    ensures gs <= fs
  {
    hide NextFrame;
    if gs != [] {
      ConcatCons(gs);
      FrameIsLong(gs[0], version);
      if fs != [] {
        ConcatCons(fs);
        var more := Concat(fs)[|Concat(gs) + left|..];
        var y := Concat(gs[1..]) + left + more;
        assert Concat(fs) == gs[0] + y;
        SameFirstFrame(fs[0], Concat(fs[1..]), gs[0], y, version);
        ReadingsAgree(fs[1..], gs[1..], left, version);
        assert fs == [fs[0]] + fs[1..] && gs == [gs[0]] + gs[1..];
      }
    }
  }

  lemma SameFirstFrame(f: seq<byte>, x: seq<byte>, g: seq<byte>, y: seq<byte>, version: Option<byte>)
    requires WellFormed(f, version) && WellFormed(g, version) && f + x == g + y
    ensures f == g && x == y
  {
    NextFrameExtends(f, x, version);
    NextFrameExtends(g, y, version);
    assert [] + x == x && [] + y == y;
  }

  lemma ConcatCons(fs: seq<seq<byte>>)
    requires fs != []
    ensures Concat(fs) == fs[0] + Concat(fs[1..])
  {
    assert fs == [fs[0]] + fs[1..];
    ConcatSplit([fs[0]], fs[1..]);
    assert Concat([fs[0]]) == Concat([]) + fs[0];
  }

  lemma FrameIsLong(f: seq<byte>, version: Option<byte>)
    requires WellFormed(f, version)
    ensures |f| >= HEADER
  {
  }

  lemma WithoutVersionCheck(f: seq<byte>, v: byte)
    requires WellFormed(f, Some(v))
    ensures WellFormed(f, None)
  {
  }
}
