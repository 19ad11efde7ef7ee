/** Both ends of one TCP connection, joined by a byte stream that may have
    delivered only part of what was written. */
module TcpTunnel {
  import opened Text
  import opened Frames
  import opened Sending = TcpSendings
  import opened TcpClients
  import opened TcpServerConns

  /** The frames offered differ from those handled only in that a server does not
      look at the version byte. */
  lemma FramesWithoutVersion(c: TcpClient)
    requires c.TxValid()
    ensures AllWellFormed(c.Frames(), None)
  {
    forall i | 0 <= i < |c.Frames()|
      ensures WellFormed(c.Frames()[i], None)
    {
      WithoutVersionCheck(c.Frames()[i], V_TCP);
    }
  }

  /** Client to server, over any run of sends: the bytes of the frames the server
      handled stand where they were offered exactly when they end before the first
      place where a send lost some; and then these frames are the first ones the
      client offered, in order and unaltered. */
  lemma UplinkIsPrefix(c: TcpClient, s: Conn)
    requires c.TxValid()
    requires s.RxValid() && s.received <= c.written
    ensures InPlace(c.calls, |Concat(s.handled)|) <==> |Concat(s.handled)| <= Kept(c.calls)
    ensures |Concat(s.handled)| <= Kept(c.calls) ==> s.handled <= c.Frames()
  {
    var n := |Concat(s.handled)|;
    InPlaceIff(c.calls, n);
    if n <= Kept(c.calls) {
      FramesWithoutVersion(c);
      OfferedIsConcat(c.calls);
      assert Concat(s.handled) == s.received[..n] == c.written[..n] == Offered(c.calls)[..n];
      assert Concat(s.handled) + [] == Concat(s.handled);
      ReadingsAgree(c.Frames(), s.handled, [], None);
    }
  }

  /** So while no reconnection is called for, whatever arrived is such a prefix. */
  lemma UplinkWhileConnected(c: TcpClient, s: Conn)
    requires c.TxValid() && !c.m_needReconnect
    requires s.RxValid() && s.received <= c.written
    ensures s.handled <= c.Frames()
  {
    CarriedInRun(c.calls);
    UplinkIsPrefix(c, s);
  }

  /** And when nothing was lost, all was written and all has arrived, every frame has
      been handled. */
  lemma UplinkComplete(c: TcpClient, s: Conn)
    requires c.TxValid() && !Lost(c.calls) && c.Backlog() == []
    requires s.RxValid() && s.received == c.written && NextFrame(s.rxBuf, None).Need?
    ensures s.handled == c.Frames()
  {
    CarriedInRun(c.calls);
    UplinkIsPrefix(c, s);
    OfferedIsConcat(c.calls);
    FramesWithoutVersion(c);
    assert c.written == Offered(c.calls) by {
      assert c.written + [] == c.written == Carried(c.calls);
      assert Carried(c.calls)[..Kept(c.calls)] == Carried(c.calls);
      assert Offered(c.calls)[..Kept(c.calls)] == Offered(c.calls);
    }
    AllRead(c.Frames(), s.handled, s.rxBuf, None);
  }

  /** A send that fails in the middle of a frame, and another that is made all the
      same: the transport remembers the first failure only in m_needReconnect. */
  function CutAt(n: nat, a: seq<byte>, b: seq<byte>): seq<Call<byte>>
  {
    [Call(a, [Sending.Took(n), Sending.Full(false, true)]), Call(b, [Sending.Took(|b|)])]
  }

  lemma CutRun(n: nat, a: seq<byte>, b: seq<byte>)
    requires 1 <= n < |a| && b != []
    ensures SendAll(CutAt(n, a, b)) == Tx([], 0, a[..n] + b)
    ensures Lost(CutAt(n, a, b)) && Kept(CutAt(n, a, b)) == n
  {
    var calls := CutAt(n, a, b);
    var first, second := calls[0], calls[1];
    assert calls == [first] + [second] && [first] == [] + [first];
    RunStep([], first);
    RunStep([first], second);
    hide SendAll, Lost, Kept;
    NothingSent<byte>();
    DirectStep([], a, 0, first.script);
    assert first.script[1..] == [Sending.Full(false, true)];
    assert [] + a[0..n] == a[..n];
    DirectStep(a[..n], b, 0, second.script);
    assert a[..n] + b[0..|b|] == a[..n] + b;
  }

  lemma NothingSent<T>()
    ensures SendAll<T>([]) == Tx([], 0, []) && !Lost<T>([])
  {
  }

  /** Whatever the two frames are, the bytes written are then no prefix of those
      offered once a length field has been overtaken by the second frame's magic. */
  lemma CutFrameShifts(a: seq<byte>, b: seq<byte>)
    requires WellFormed(a, VERSION) && WellFormed(b, VERSION)
    ensures !(SendAll(CutAt(5, a, b)).written <= Offered(CutAt(5, a, b)))
  {
    CutRun(5, a, b);
    var calls := CutAt(5, a, b);
    assert calls == [calls[0]] + [calls[1]] && [calls[0]] == [] + [calls[0]];
    RunStep([], calls[0]);
    RunStep([calls[0]], calls[1]);
    assert Offered(calls) == [] + a + b;
    assert (a[..5] + b)[6] == b[1] == b[..4][1] == MAGIC[1] == 0x50;
    assert Offered(calls)[6] == a[6];
    assert a[6] < 0x50 by { assert PayloadLen(a) <= MAX_PAYLOAD; }
  }

  /** With one byte of payload missing the server handles a frame that was never
      offered: the header of the first frame on the first byte of the second. */
  lemma CutFrameIsForged(a: seq<byte>, b: seq<byte>, c: TcpClient, s: Conn)
    requires WellFormed(a, VERSION) && WellFormed(b, VERSION) && |a| == HEADER + 1 && a[HEADER] != MAGIC[0]
    requires c.TxValid() && c.calls == CutAt(HEADER, a, b)
    requires s.RxValid() && s.received == c.written && !NextFrame(s.rxBuf, None).Got?
    ensures s.handled == [a[..HEADER] + [MAGIC[0]]] && c.Frames() == [a, b]
    ensures !(s.handled <= c.Frames())
  {
    CutRun(HEADER, a, b);
    assert b[0] == b[..4][0] == MAGIC[0];
    var forged := a[..HEADER] + [MAGIC[0]];
    assert s.received == forged + b[1..] && c.Frames() == [a, b];
    assert forged != a by { assert forged[HEADER] == MAGIC[0]; }
    ForgedStream(a, b, s.handled, s.rxBuf);
  }

  /** What a reading found first is the frame its bytes start with. */
  lemma StartsWhole(handled: seq<seq<byte>>, rest: seq<byte>)
    requires AllWellFormed(handled, None) && handled != []
    ensures NextFrame(Concat(handled) + rest, None) == Got(handled[0], Concat(handled[1..]) + rest)
  {
    hide NextFrame;
    ConcatCons(handled);
    NextFrameExtends(handled[0], Concat(handled[1..]) + rest, None);
    assert Concat(handled) + rest == handled[0] + (Concat(handled[1..]) + rest);
    assert [] + (Concat(handled[1..]) + rest) == Concat(handled[1..]) + rest;
  }

  /** A reading of bytes that start with no whole frame has found none. */
  lemma NothingRead(handled: seq<seq<byte>>, rest: seq<byte>)
    requires AllWellFormed(handled, None) && !NextFrame(Concat(handled) + rest, None).Got?
    ensures handled == []
  {
    hide NextFrame;
    if handled != [] {
      StartsWhole(handled, rest);
    }
  }

  /** A reading to the end of bytes that start with a frame has found it first. */
  lemma FirstRead(f: seq<byte>, more: seq<byte>, handled: seq<seq<byte>>, rest: seq<byte>)
    requires WellFormed(f, None) && AllWellFormed(handled, None) && !NextFrame(rest, None).Got?
    requires Concat(handled) + rest == f + more
    ensures handled != [] && handled[0] == f && Concat(handled[1..]) + rest == more
  {
    hide NextFrame;
    NextFrameExtends(f, more, None);
    assert [] + more == more && [] + rest == rest;
    if handled != [] {
      StartsWhole(handled, rest);
    }
  }

  lemma ForgedStream(a: seq<byte>, b: seq<byte>, handled: seq<seq<byte>>, rest: seq<byte>)
    requires WellFormed(a, VERSION) && WellFormed(b, VERSION) && |a| == HEADER + 1
    requires AllWellFormed(handled, None) && !NextFrame(rest, None).Got?
    requires Concat(handled) + rest == a[..HEADER] + [MAGIC[0]] + b[1..]
    ensures handled == [a[..HEADER] + [MAGIC[0]]]
  {
    var forged := a[..HEADER] + [MAGIC[0]];
    assert forged[..4] == a[..4];
    assert WellFormed(forged, None);
    FirstRead(forged, b[1..], handled, rest);
    SecondByte(b);
    NothingRead(handled[1..], rest);
  }

  lemma SecondByte(b: seq<byte>)
    requires WellFormed(b, VERSION)
    ensures !NextFrame(b[1..], None).Got?
  {
    if |b[1..]| >= HEADER {
      assert b[1..][..4][0] == b[..4][1] == MAGIC[1];
    }
  }

  /** A reading of all bytes that holds no further frame has found every frame. */
  lemma AllRead(fs: seq<seq<byte>>, gs: seq<seq<byte>>, left: seq<byte>, version: Option<byte>)
    requires AllWellFormed(fs, version) && gs <= fs
    requires Concat(gs) + left == Concat(fs) && NextFrame(left, version).Need?
    ensures gs == fs
  {
    var rest := fs[|gs|..];
    assert fs == gs + rest;
    ConcatSplit(gs, rest);
    assert left == Concat(fs)[|Concat(gs)|..] == Concat(rest);
    if rest != [] {
      ConcatCons(rest);
      NextFrameExtends(rest[0], Concat(rest[1..]), version);
    }
  }

  /** Server to client, likewise, from the queue every sending thread uses. */
  lemma DownlinkIsPrefix(s: Conn, c: TcpClient)
    requires s.TxValid() && c.RxValid() && c.received <= s.written
    ensures c.delivered <= s.tx.accepted
  {
    s.NothingLost();
    ReadingsAgree(s.tx.accepted, c.delivered, c.Unread(), VERSION);
  }

  /** When all bytes arrived and no reader holds a whole frame, every frame has
      been handed over. */
  lemma DownlinkComplete(s: Conn, c: TcpClient)
    requires s.TxValid() && s.tx.frames == [] && s.Backlog() == []
    requires c.RxValid() && c.received == s.written && NextFrame(c.Unread(), VERSION).Need?
    ensures c.delivered == s.tx.accepted
  {
    DownlinkIsPrefix(s, c);
    s.NothingLost();
    assert s.written + [] + [] == s.written;
    AllRead(s.tx.accepted, c.delivered, c.Unread(), VERSION);
  }
}
