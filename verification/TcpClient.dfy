/** The client's TCP transport (src/tcp.cpp): frame reassembly out of a lazily
    compacted receive buffer, and sends that keep what the socket does not take. */
module TcpClients {
  import opened Text
  import opened Frames
  import opened TcpSendings

  const COMPACT_AT: nat := 64 * 1024
  const VERSION: Option<byte> := Some(V_TCP)

  /** What waiting for input led to. */
  datatype RecvEvent = Stopped | PollFailed | PollTimeout | PollHangup(localClose: bool)
                     | Data(bytes: seq<byte>) | Fin | WouldBlock | RecvFailed

  /** Bytes one turn read: none unless the socket was consulted and had some. */
  function Read(asked: bool, ev: RecvEvent): seq<byte>
  {
    if asked && ev.Data? then ev.bytes else []
  }

  class TcpClient {
    var m_rxBuf: seq<byte>
    var m_rxOff: nat
    var m_consumed: nat
    var m_txPending: seq<byte>
    var m_txPendingOff: nat
    var m_needReconnect: bool

    ghost var received: seq<byte>          // every byte read from the socket
    ghost var delivered: seq<seq<byte>>    // every frame handed to handle_frame
    ghost var written: seq<byte>           // every byte the kernel took
    ghost var calls: seq<Call<byte>>       // every raw_send: its frame and what the socket answered

    /** Received bytes not yet handed over as part of a frame. */
    ghost function Unread(): seq<byte>
      reads this
      requires m_rxOff + m_consumed <= |m_rxBuf|
    {
      m_rxBuf[m_rxOff + m_consumed..]
    }

    ghost function Backlog(): seq<byte>
      reads this
      requires m_txPendingOff <= |m_txPending|
    {
      m_txPending[m_txPendingOff..]
    }

    ghost predicate RxValid()
      reads this
    {
      && m_rxOff + m_consumed <= |m_rxBuf|
      && AllWellFormed(delivered, VERSION)
      && received == Concat(delivered) + Unread()
    }

    /** Every frame given to raw_send. */
    ghost function Frames(): seq<seq<byte>>
      reads this
    {
      FramesOf(calls)
    }

    ghost function Sending(): Tx<byte>
      reads this
    {
      Tx(m_txPending, m_txPendingOff, written)
    }

    /** The state is the one these calls lead to. */
    ghost predicate TxValid()
      reads this
    {
      && m_txPendingOff <= |m_txPending|
      && AllWellFormed(Frames(), VERSION)
      && Sending() == SendAll(calls)
      && (Lost(calls) ==> m_needReconnect)
    }

    ghost predicate Valid()
      reads this
    {
      RxValid() && TxValid()
    }

    constructor ()
      ensures Valid()
      ensures received == [] && delivered == [] && written == [] && calls == []
    {
      m_rxBuf, m_rxOff, m_consumed := [], 0, 0;
      m_txPending, m_txPendingOff := [], 0;
      m_needReconnect := false;
      received, delivered, written, calls := [], [], [], [];
    }

    // ---- receiving ----------------------------------------------------------

    method CompactRx()
      requires m_consumed == 0 && m_rxOff <= |m_rxBuf|
      modifies this`m_rxBuf, this`m_rxOff
      ensures m_rxOff <= |m_rxBuf| && m_rxBuf[m_rxOff..] == old(m_rxBuf[m_rxOff..])
      ensures m_rxOff < COMPACT_AT
    {
      if m_rxOff == 0 {
        return;
      }
      if m_rxOff >= |m_rxBuf| {
        m_rxBuf, m_rxOff := [], 0;
        return;
      }
      if m_rxOff >= COMPACT_AT {
        m_rxBuf, m_rxOff := m_rxBuf[m_rxOff..], 0;
      }
    }

    /** 1: a whole frame starts the buffer and is handed over, 0: not enough
        bytes, -1: not a frame. */
    method TakeFrame() returns (code: int, payload: seq<byte>)
      requires RxValid() && m_consumed == 0
      modifies this`m_consumed, this`delivered
      ensures RxValid()
      ensures match NextFrame(old(Unread()), VERSION)
              case Got(f, rest) =>
                code == 1 && payload == f[HEADER..] && delivered == old(delivered) + [f] && Unread() == rest
              case Need => code == 0 && delivered == old(delivered) && Unread() == old(Unread())
              case Bad => code == -1 && delivered == old(delivered) && Unread() == old(Unread())
    {
      hide NextFrame, Concat;
      var base := m_rxBuf[m_rxOff..];
      var n;
      code, n := Inspect(base, VERSION);
      if code <= 0 {
        return code, [];
      }
      m_consumed := n;
      NextFrameExtends(base, [], VERSION);
      ConcatAppend(delivered, base[..n]);
      delivered := delivered + [base[..n]];
      assert Unread() == base[n..];
      assert base == base[..n] + base[n..];
      assert Concat(delivered) + base[n..] == received;
      payload := base[HEADER..n];
      assert payload == base[..n][HEADER..];
    }

    /** The outcome of one turn on the bytes now buffered. */
    ghost predicate Turned(now: seq<byte>, before: seq<seq<byte>>, got: bool, payload: seq<byte>)
      reads this
      requires m_rxOff + m_consumed <= |m_rxBuf|
    {
      match NextFrame(now, VERSION)
      case Got(f, rest) => got && payload == f[HEADER..] && delivered == before + [f] && Unread() == rest
      case Need => !got && delivered == before && Unread() == now
      case Bad => !got && delivered == before && Unread() == now
    }

    /** One turn of the receive loop. The socket is consulted (ev) only when no
        whole frame is buffered; at most one frame is handed over. */
    method RecvFrame(ev: RecvEvent) returns (alive: bool, got: bool, payload: seq<byte>, asked: bool)
      requires RxValid()
      modifies this`m_rxBuf, this`m_rxOff, this`m_consumed, this`m_needReconnect, this`received, this`delivered
      ensures RxValid()
      ensures asked <==> NextFrame(old(Unread()), VERSION).Need?
      ensures received == old(received) + Read(asked, ev)
      ensures Turned(old(Unread()) + Read(asked, ev), old(delivered), got, payload)
      ensures NextFrame(old(Unread()) + Read(asked, ev), VERSION).Bad? ==> !alive && m_needReconnect
      ensures alive <==> got || (asked && (ev.Stopped? || ev.PollTimeout? || ev.WouldBlock?))
                             || (asked && ev.Data? && NextFrame(old(Unread()) + ev.bytes, VERSION).Need?)
      ensures m_needReconnect && !old(m_needReconnect) ==> !alive
    {
      hide NextFrame, Concat, AllWellFormed;
      got, asked := false, false;
      ghost var unread := Unread();
      Advance();
      assert unread == unread + [] && received == received + [];
      var taken;
      taken, payload := TakeFrame();
      if taken > 0 {
        return true, true, payload, asked;
      }
      if taken < 0 {
        m_needReconnect := true;
        return false, false, payload, asked;
      }
      asked := true;
      if ev.Stopped? || ev.PollTimeout? || ev.WouldBlock? {
        return true, false, payload, asked;
      }
      if !ev.Data? {
        if !(ev.PollHangup? && ev.localClose) {
          m_needReconnect := true;
        }
        return false, false, payload, asked;
      }
      Buffer(ev.bytes);
      taken, payload := TakeFrame();
      if taken > 0 {
        return true, true, payload, asked;
      }
      if taken < 0 {
        m_needReconnect := true;
        return false, false, payload, asked;
      }
      return true, false, payload, asked;
    }

    /** Step over the frame handed over last time. */
    method Advance()
      requires RxValid()
      modifies this`m_rxBuf, this`m_rxOff, this`m_consumed
      ensures RxValid() && m_consumed == 0
      ensures Unread() == old(Unread())
    {
      if m_consumed > 0 {
        m_rxOff := m_rxOff + m_consumed;
        m_consumed := 0;
        CompactRx();
      }
    }

    /** Append one read to the buffer. */
    method Buffer(bytes: seq<byte>)
      requires RxValid()
      modifies this`m_rxBuf, this`received
      ensures RxValid()
      ensures received == old(received) + bytes && Unread() == old(Unread()) + bytes
    {
      assert (m_rxBuf + bytes)[m_rxOff + m_consumed..] == Unread() + bytes;
      assert Concat(delivered) + (Unread() + bytes) == Concat(delivered) + Unread() + bytes;
      m_rxBuf := m_rxBuf + bytes;
      received := received + bytes;
    }

    // ---- sending ------------------------------------------------------------

    /** Write the backlog as far as the socket takes it. A full socket is not a
        failure; only a dead connection is. */
    method FlushTxPending(script: seq<SendEvent>) returns (ok: bool)
      requires m_txPendingOff <= |m_txPending|
      modifies this`m_txPending, this`m_txPendingOff, this`m_needReconnect, this`written
      ensures m_txPendingOff <= |m_txPending|
      ensures Outcome(ok, Sending()) == Flushed(old(Sending()), script)
      ensures written + Backlog() == old(written) + old(Backlog())
      ensures m_needReconnect == (old(m_needReconnect) || !ok)
    {
      var i := 0;
      while m_txPendingOff < |m_txPending|
        invariant m_txPendingOff <= |m_txPending| && i <= |script|
        invariant Flushed(Sending(), script[i..]) == Flushed(old(Sending()), script)
        invariant m_needReconnect == old(m_needReconnect)
        decreases |script| - i
      {
        if i == |script| {
          return true;
        }
        var ev := script[i];
        assert script[i..][0] == ev && script[i..][1..] == script[i + 1..];
        i := i + 1;
        match ev
        case Took(n) =>
          var remain := |m_txPending| - m_txPendingOff;
          var k := if n < 1 then 1 else if n > remain then remain else n;
          written := written + m_txPending[m_txPendingOff..m_txPendingOff + k];
          m_txPendingOff := m_txPendingOff + k;
        case Full(late, hurt) =>
          if late {
            return true;
          }
          if hurt {
            m_needReconnect := true;
            return false;
          }
        case Closed =>
          m_needReconnect := true;
          return false;
        case Failed =>
          m_needReconnect := true;
          return false;
      }
      m_txPending, m_txPendingOff := [], 0;
      return true;
    }

    /** Offer one frame. The whole state of the transport is a function of the calls
        made so far; neither an earlier failure nor m_needReconnect is looked at. */
    method RawSend(data: seq<byte>, script: seq<SendEvent>) returns (ok: bool)
      requires TxValid() && WellFormed(data, VERSION)
      modifies this`m_txPending, this`m_txPendingOff, this`m_needReconnect, this`written, this`calls
      ensures TxValid()
      ensures calls == old(calls) + [Call(data, script)]
      ensures Outcome(ok, Sending()) == Sent(old(Sending()), data, script)
      ensures m_needReconnect == (old(m_needReconnect) || !ok)
    {
      hide NextFrame, WellFormed, Flushed, Direct, SendAll, Lost, FramesOf;
      RunStep(calls, Call(data, script));
      FramesMore(calls, Call(data, script));
      calls := calls + [Call(data, script)];
      if m_txPendingOff < |m_txPending| {
        if |m_txPending| + |data| > MAX_TX_PENDING {
          m_needReconnect := true;
          return false;
        }
        if m_txPendingOff > 0 {
          m_txPending, m_txPendingOff := m_txPending[m_txPendingOff..], 0;
        }
        m_txPending := m_txPending + data;
        ok := FlushTxPending(script);
        return ok;
      }
      ok := WriteFrame(data, script);
    }

    /** The direct path, with no backlog: write, and keep what the socket refuses. */
    method WriteFrame(data: seq<byte>, script: seq<SendEvent>) returns (ok: bool)
      requires m_txPendingOff == |m_txPending| && m_txPending == []
      modifies this`m_txPending, this`m_txPendingOff, this`m_needReconnect, this`written
      ensures m_txPendingOff <= |m_txPending|
      ensures Outcome(ok, Sending()) == Direct(old(written), data, 0, script)
      ensures ok ==> written + Backlog() == old(written) + data
      ensures !ok ==> old(written) <= written < old(written) + data && Backlog() == []
      ensures m_needReconnect == (old(m_needReconnect) || !ok)
    {
      ghost var start := written;
      assert data[0..] == data;
      var off, i := 0, 0;
      while off < |data|
        invariant 0 <= off <= |data| && i <= |script|
        invariant m_txPending == [] && m_txPendingOff == 0
        invariant Direct(written, data, off, script[i..]) == Direct(start, data, 0, script)
        invariant m_needReconnect == old(m_needReconnect)
        decreases |script| - i
      {
        if i == |script| {
          m_txPending, m_txPendingOff := data[off..], 0;
          return true;
        }
        var ev := script[i];
        assert script[i..][0] == ev && script[i..][1..] == script[i + 1..];
        i := i + 1;
        match ev
        case Took(n) =>
          var remain := |data| - off;
          var k := if n < 1 then 1 else if n > remain then remain else n;
          written := written + data[off..off + k];
          off := off + k;
        case Full(late, hurt) =>
          if late {
            m_txPending, m_txPendingOff := data[off..], 0;
            return true;
          }
          if hurt {
            m_needReconnect := true;
            return false;
          }
        case Closed =>
          m_needReconnect := true;
          return false;
        case Failed =>
          m_needReconnect := true;
          return false;
      }
      return true;
    }
  }
}
