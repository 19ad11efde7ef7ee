/** One server-side TCP connection (server/TCP/tcpserver.cpp) and the queue through
    which other threads hand it sealed frames (server/UDP/UDP.cpp, send_packet). */
module TcpServerConns {
  import opened Text
  import opened Frames

  const MAX_TCP_TX: nat := 2 * 1024 * 1024
  const MAX_RX_BUF: nat := 512 * 1024
  const READ_BUDGET: nat := 64
  const COMPACT_AT: nat := 4096

  datatype SendEvent = Took(n: nat) | Interrupted | Full | Failed
  datatype ReadEvent = Data(bytes: seq<byte>) | Eof | Again | Retry | Error

  /** How many bytes the socket takes before it is full or fails: every send takes at
      least one. */
  function Room(script: seq<SendEvent>): nat
  {
    if script == [] then 0
    else
      match script[0]
      case Took(n) => (if n < 1 then 1 else n) + Room(script[1..])
      case Interrupted => Room(script[1..])
      case _ => 0
  }

  /** Whether it fails rather than being full. */
  predicate Breaks(script: seq<SendEvent>)
  {
    script != [] && (script[0].Failed? || ((script[0].Took? || script[0].Interrupted?) && Breaks(script[1..])))
  }

  function Min(a: nat, b: nat): nat
  {
    if a < b then a else b
  }

  /** All bytes of these reads. */
  function DataOf(script: seq<ReadEvent>): seq<byte>
  {
    if script == [] then []
    else DataOf(script[..|script| - 1]) + if script[|script| - 1].Data? then script[|script| - 1].bytes else []
  }

  /** No bytes among these reads. */
  predicate Quiet(script: seq<ReadEvent>)
  {
    forall k :: 0 <= k < |script| ==> !script[k].Data?
  }

  /** The first n reads gave bytes or were interrupted. */
  predicate ReadUpTo(script: seq<ReadEvent>, n: nat)
  {
    n <= |script| && forall k :: 0 <= k < n ==> script[k].Data? || script[k].Retry?
  }

  /** There the kernel has no more. */
  predicate RanDry(script: seq<ReadEvent>, n: nat)
  {
    n == |script| || (n < |script| && script[n].Again?)
  }

  /** There the peer is gone, or sends more than the buffer may hold. */
  predicate Ended(script: seq<ReadEvent>, n: nat, buffered: nat)
  {
    n < |script| && (script[n].Eof? || script[n].Error? || (script[n].Data? && buffered + |script[n].bytes| > MAX_RX_BUF))
  }

  lemma Nothing(script: seq<ReadEvent>, drops: nat -> bool)
    ensures ReadUpTo(script, 0) && Quiet(script[..0]) && DataOf(script[..0]) == [] && Undropped(drops, 0)
    ensures 0 < READ_BUDGET
  {
  }

  lemma Dried(script: seq<ReadEvent>, i: nat)
    requires i <= |script| && (i < |script| ==> script[i].Again?)
    ensures RanDry(script, i)
  {
  }

  lemma Broken(script: seq<ReadEvent>, i: nat, buffered: nat)
    requires i < |script| && !script[i].Again? && !script[i].Retry?
    requires script[i].Data? ==> buffered + |script[i].bytes| > MAX_RX_BUF
    ensures Ended(script, i, buffered)
  {
  }

  lemma SmallerOf(n: nat)
    ensures Min(n, READ_BUDGET - 1) == if n < READ_BUDGET then n else READ_BUDGET - 1
    ensures 0 < READ_BUDGET
  {
  }

  lemma OneRead(script: seq<ReadEvent>, i: nat)
    requires i < |script| && ReadUpTo(script, i) && (script[i].Data? || script[i].Retry?)
    ensures ReadUpTo(script, i + 1)
    ensures DataOf(script[..i + 1]) == DataOf(script[..i]) + if script[i].Data? then script[i].bytes else []
    ensures Quiet(script[..i + 1]) <==> Quiet(script[..i]) && !script[i].Data?
  {
    assert script[..i + 1][..i] == script[..i];
    assert script[..i + 1] == script[..i] + [script[i]];
  }

  lemma RoomAt(script: seq<SendEvent>, i: nat)
    requires i <= |script|
    ensures var rest := script[i..];
            if i == |script| || script[i].Full? then Room(rest) == 0 && !Breaks(rest)
            else if script[i].Failed? then Room(rest) == 0 && Breaks(rest)
            else Room(rest) == (if script[i].Interrupted? then 0 else if script[i].n < 1 then 1 else script[i].n) + Room(script[i + 1..])
                 && Breaks(rest) == Breaks(script[i + 1..])
  {
    assert i < |script| ==> script[i..][1..] == script[i + 1..];
  }

  lemma TakenMore(start: seq<byte>, all: seq<byte>, d: nat, k: nat)
    requires d + k <= |all|
    ensures start + all[..d] + all[d..][..k] == start + all[..d + k] && all[d..][k..] == all[d + k..]
  {
  }

  /** None of the first n frames handled asked for a drop. */
  ghost predicate Undropped(drops: nat -> bool, n: nat)
  {
    forall m: nat :: m < n ==> !drops(m)
  }

  /** How handling the buffered frames ended: none left, no frame, a drop asked for, or
      64 frames done. */
  datatype Turn = Dry | Garbage | Asked | Budget

  /** The tcp_tx fields of a session. */
  class TxQueue {
    var frames: seq<seq<byte>>
    var bytes: nat
    var drop: bool
    ghost var accepted: seq<seq<byte>>    // every frame ever queued
    ghost var taken: seq<seq<byte>>       // those already moved to the connection

    ghost predicate Valid()
      reads this
    {
      && accepted == taken + frames
      && bytes == |Concat(frames)| <= MAX_TCP_TX
      && AllWellFormed(accepted, Some(V_TCP))
    }

    constructor ()
      ensures Valid() && accepted == [] && taken == [] && !drop
    {
      frames, bytes, drop, accepted, taken := [], 0, false, [], [];
    }

    /** Queue one sealed frame, or ask for the connection to be dropped when the
        peer has let more than 2 MB pile up. */
    method Submit(frame: seq<byte>) returns (ok: bool)
      requires Valid() && WellFormed(frame, Some(V_TCP))
      modifies this
      ensures Valid() && taken == old(taken)
      ensures ok <==> |Concat(old(frames))| + |frame| <= MAX_TCP_TX
      ensures accepted == old(accepted) + if ok then [frame] else []
      ensures drop == (old(drop) || !ok)
    {
      hide WellFormed;
      if bytes + |frame| > MAX_TCP_TX {
        drop := true;
        assert accepted == accepted + [];
        return false;
      }
      ConcatAppend(frames, frame);
      assert accepted + [frame] == taken + (frames + [frame]);
      frames, bytes, accepted := frames + [frame], bytes + |frame|, accepted + [frame];
      return true;
    }
  }

  class Conn {
    const tx: TxQueue
    var rxBuf: seq<byte>
    var txBuf: seq<byte>
    var txOff: nat
    var wantEpollout: bool

    ghost var received: seq<byte>          // every byte read from the socket
    ghost var handled: seq<seq<byte>>      // every frame given to handle_framed
    ghost var written: seq<byte>           // every byte the kernel took

    ghost predicate RxValid()
      reads this
    {
      AllWellFormed(handled, None) && received == Concat(handled) + rxBuf
    }

    ghost function Backlog(): seq<byte>
      reads this
      requires txOff <= |txBuf|
    {
      txBuf[txOff..]
    }

    ghost predicate TxValid()
      reads this, tx
    {
      && tx.Valid()
      && txOff <= |txBuf|
      && written + Backlog() == Concat(tx.taken)
    }

    constructor (tx: TxQueue)
      requires tx.Valid() && tx.taken == []
      ensures RxValid() && TxValid() && this.tx == tx
      ensures received == [] && handled == [] && written == [] && !wantEpollout
    {
      this.tx := tx;
      rxBuf, txBuf, txOff, wantEpollout := [], [], 0, false;
      received, handled, written := [], [], [];
    }

    // ---- sending ------------------------------------------------------------

    /** Everything queued so far is written, buffered here or still in the queue. */
    lemma NothingLost()
      requires TxValid()
      ensures written + Backlog() + Concat(tx.frames) == Concat(tx.accepted)
    {
      ConcatSplit(tx.taken, tx.frames);
    }

    /** Empty the cross-thread queue into the transmit buffer. */
    method MoveQueued()
      requires TxValid()
      modifies this`txBuf, tx`frames, tx`bytes, tx`taken
      ensures TxValid() && tx.frames == [] && tx.taken == tx.accepted
      ensures Backlog() == old(Backlog()) + Concat(old(tx.frames))
    {
      NothingLost();
      var frames := tx.frames;
      tx.frames, tx.bytes := [], 0;
      tx.taken := tx.accepted;
      assert tx.accepted == tx.taken + [];
      ghost var backlog := Backlog();
      AppendAll(frames);
      assert written + (backlog + Concat(frames)) == written + backlog + Concat(frames);
    }

    method AppendAll(frames: seq<seq<byte>>)
      requires txOff <= |txBuf|
      modifies this`txBuf
      ensures txOff <= |txBuf| && Backlog() == old(Backlog()) + Concat(frames)
    {
      ghost var start := txBuf;
      for i := 0 to |frames|
        invariant txBuf == start + Concat(frames[..i])
      {
        assert frames[..i + 1] == frames[..i] + [frames[i]];
        ConcatAppend(frames[..i], frames[i]);
        txBuf := txBuf + frames[i];
      }
      assert frames[..|frames|] == frames;
    }

    /** Write what the socket takes: of all bytes buffered and queued, as many as there
        is room for. The call fails exactly when the socket does with bytes left, or when
        interest in writability, which is wanted exactly with bytes left, cannot be
        changed. */
    method FlushConnTx(script: seq<SendEvent>, ctlOk: bool) returns (ok: bool)
      requires TxValid()
      modifies this`txBuf, this`txOff, this`wantEpollout, this`written, tx`frames, tx`bytes, tx`taken
      ensures TxValid() && tx.frames == [] && tx.taken == tx.accepted
      ensures var all := old(Backlog()) + Concat(old(tx.frames));
              var n := Min(Room(script), |all|);
              && written == old(written) + all[..n] && Backlog() == all[n..]
              && (ok <==> !(n < |all| && Breaks(script)) && ((n < |all|) == old(wantEpollout) || ctlOk))
              && wantEpollout == if ok then n < |all| else old(wantEpollout)
      ensures ok ==> txOff < COMPACT_AT
    {
      hide Concat, Room, Breaks;
      MoveQueued();
      var blocked, broken := WriteOut(script);
      if broken {
        return false;
      }
      Compact();
      var needOut := txOff < |txBuf| && blocked;
      if needOut != wantEpollout {
        if !ctlOk {
          return false;
        }
        wantEpollout := needOut;
      }
      return true;
    }

    /** Give back the space of what was written. */
    method Compact()
      requires TxValid()
      modifies this`txBuf, this`txOff
      ensures TxValid() && Backlog() == old(Backlog()) && txOff < COMPACT_AT
    {
      hide Concat;
      if txOff >= |txBuf| {
        txBuf, txOff := [], 0;
      } else if txOff >= COMPACT_AT {
        txBuf, txOff := txBuf[txOff..], 0;
      }
    }

    /** The write loop: until the buffer is empty, the socket full or failed. */
    method WriteOut(script: seq<SendEvent>) returns (blocked: bool, broken: bool)
      requires TxValid()
      modifies this`txOff, this`written
      ensures TxValid()
      ensures var all := old(Backlog());
              var n := Min(Room(script), |all|);
              && written == old(written) + all[..n] && Backlog() == all[n..]
              && (broken <==> n < |all| && Breaks(script)) && (blocked <==> n < |all| && !Breaks(script))
    {
      hide Concat, Room, Breaks;
      var i: nat := 0;
      ghost var all := Backlog();
      ghost var d: nat := 0;
      assert script[0..] == script && all[0..] == all && written + all[..0] == written;
      while txOff < |txBuf|
        invariant i <= |script| && d <= |all| && TxValid()
        invariant written == old(written) + all[..d] && Backlog() == all[d..]
        invariant d < |all| ==> Room(script) == d + Room(script[i..]) && Breaks(script) == Breaks(script[i..])
        invariant d == |all| ==> Room(script) >= |all|
        decreases |script| - i
      {
        RoomAt(script, i);
        var ev := if i < |script| then script[i] else Full;
        if ev.Full? {
          return true, false;
        }
        i := i + 1;
        if ev.Took? {
          var remain := |txBuf| - txOff;
          assert remain == |Backlog()| == |all| - d;
          var k := if ev.n < 1 then 1 else if ev.n > remain then remain else ev.n;
          Wrote(k);
          TakenMore(old(written), all, d, k);
          d := d + k;
        } else if ev.Failed? {
          return false, true;
        }
      }
      return false, false;
    }

    method Wrote(k: nat)
      requires TxValid() && txOff + k <= |txBuf|
      modifies this`txOff, this`written
      ensures TxValid()
      ensures written == old(written) + old(Backlog())[..k] && Backlog() == old(Backlog())[k..]
    {
      hide Concat;
      assert written + Backlog() == (written + txBuf[txOff..txOff + k]) + txBuf[txOff + k..];
      written := written + txBuf[txOff..txOff + k];
      txOff := txOff + k;
    }

    // ---- receiving ----------------------------------------------------------

    /** Hand over the first buffered frame, if there is one. */
    method HandleOne() returns (front: Front)
      requires RxValid()
      modifies this`rxBuf, this`handled
      ensures RxValid() && received == old(received)
      ensures front == NextFrame(old(rxBuf), None)
      ensures match front
              case Got(f, rest) => handled == old(handled) + [f] && rxBuf == rest
              case _ => handled == old(handled) && rxBuf == old(rxBuf)
    {
      hide NextFrame, Concat;
      var code, n := Inspect(rxBuf, None);
      if code <= 0 {
        return if code == 0 then Need else Bad;
      }
      front := Got(rxBuf[..n], rxBuf[n..]);
      NextFrameExtends(rxBuf, [], None);
      ConcatAppend(handled, front.frame);
      assert Concat(handled) + rxBuf == Concat(handled) + front.frame + front.rest;
      handled := handled + [front.frame];
      rxBuf := front.rest;
    }

    /** One turn for a readable connection: alternate reading and handling until the kernel has no
        more, 64 frames are done, or the connection is to be dropped; upTo is how far
        it read, and it fails for one of the four reasons named and no other. drops(n)
        tells whether handling the n-th frame of this call asked for a drop. Whole
        frames left behind by the budget wait for new bytes: a turn that reads
        nothing hands over nothing. */
    method ReadConn(script: seq<ReadEvent>, drops: nat -> bool) returns (ok: bool, frames: nat, ghost upTo: nat)
      requires RxValid()
      modifies this`rxBuf, this`received, this`handled
      ensures RxValid() && frames <= READ_BUDGET
      ensures ReadUpTo(script, upTo) && received == old(received) + DataOf(script[..upTo])
      ensures old(handled) <= handled && |handled| == |old(handled)| + frames
      ensures ok && frames < READ_BUDGET ==>
                RanDry(script, upTo) && (NextFrame(rxBuf, None).Need? || (Quiet(script[..upTo]) && rxBuf == old(rxBuf)))
      ensures ok ==> Undropped(drops, Min(frames, READ_BUDGET - 1))
      ensures !ok ==> Ended(script, upTo, |rxBuf|) || NextFrame(rxBuf, None).Bad? || (frames > 0 && drops(frames - 1))
      ensures Quiet(script[..upTo]) ==> frames == 0 && rxBuf == old(rxBuf)
    {
      frames := 0;
      var i: nat := 0;
      Nothing(script, drops);
      assert received + [] == received;
      hide *;
      while true
        invariant RxValid() && ReadUpTo(script, i) && frames < READ_BUDGET && Undropped(drops, frames)
        invariant i <= |script| && received == old(received) + DataOf(script[..i])
        invariant old(handled) <= handled && |handled| == |old(handled)| + frames
        invariant Quiet(script[..i]) ==> frames == 0 && rxBuf == old(rxBuf)
        invariant !Quiet(script[..i]) ==> NextFrame(rxBuf, None).Need?
        decreases |script| - i
      {
        var ev := if i < |script| then script[i] else Again;
        if ev.Again? {
          Dried(script, i);
          ok := true;
          break;
        }
        if (!ev.Data? && !ev.Retry?) || (ev.Data? && |rxBuf| + |ev.bytes| > MAX_RX_BUF) {
          Broken(script, i, |rxBuf|);
          ok := false;
          break;
        }
        OneRead(script, i);
        i := i + 1;
        if ev.Retry? {
          assert received + [] == received;
          continue;
        }
        assert old(received) + (DataOf(script[..i - 1]) + ev.bytes) == received + ev.bytes;
        var turn;
        turn, frames := TakeIn(ev.bytes, frames, drops);
        if !turn.Dry? {
          ok := turn.Budget?;
          break;
        }
      }
      upTo := i;
      SmallerOf(frames);
    }

    /** Buffer one read and handle what it completed. */
    method TakeIn(bytes: seq<byte>, done: nat, drops: nat -> bool) returns (turn: Turn, frames: nat)
      requires RxValid() && done < READ_BUDGET && Undropped(drops, done)
      modifies this`rxBuf, this`received, this`handled
      ensures RxValid() && received == old(received) + bytes && old(handled) <= handled
      ensures |handled| == |old(handled)| + frames - done && done <= frames <= READ_BUDGET
      ensures match turn
              case Dry => NextFrame(rxBuf, None).Need? && frames < READ_BUDGET && Undropped(drops, frames)
              case Garbage => NextFrame(rxBuf, None).Bad?
              case Asked => frames > 0 && drops(frames - 1)
              case Budget => frames == READ_BUDGET && Undropped(drops, READ_BUDGET - 1)
    {
      Buffer(bytes);
      turn, frames := HandleAll(done, drops);
    }

    /** Handle the whole frames buffered, as far as the budget allows. */
    method HandleAll(done: nat, drops: nat -> bool) returns (turn: Turn, frames: nat)
      requires RxValid() && done < READ_BUDGET && Undropped(drops, done)
      modifies this`rxBuf, this`handled
      ensures RxValid() && received == old(received) && old(handled) <= handled
      ensures |handled| == |old(handled)| + frames - done && done <= frames <= READ_BUDGET
      ensures match turn
              case Dry => NextFrame(rxBuf, None).Need? && frames < READ_BUDGET && Undropped(drops, frames)
              case Garbage => NextFrame(rxBuf, None).Bad?
              case Asked => frames > 0 && drops(frames - 1)
              case Budget => frames == READ_BUDGET && Undropped(drops, READ_BUDGET - 1)
    {
      hide NextFrame, Concat, AllWellFormed;
      frames := done;
      while true
        invariant RxValid() && received == old(received) && old(handled) <= handled
        invariant |handled| == |old(handled)| + frames - done && done <= frames < READ_BUDGET
        invariant Undropped(drops, frames)
        decreases READ_BUDGET - frames
      {
        var front := HandleOne();
        if front.Need? {
          return Dry, frames;
        }
        if front.Bad? {
          return Garbage, frames;
        }
        frames := frames + 1;
        if drops(frames - 1) {
          return Asked, frames;
        }
        if frames >= READ_BUDGET {
          return Budget, frames;
        }
      }
    }

    method Buffer(bytes: seq<byte>)
      requires RxValid()
      modifies this`rxBuf, this`received
      ensures RxValid()
      ensures received == old(received) + bytes && rxBuf == old(rxBuf) + bytes && handled == old(handled)
    {
      assert Concat(handled) + (rxBuf + bytes) == Concat(handled) + rxBuf + bytes;
      rxBuf := rxBuf + bytes;
      received := received + bytes;
    }

    // ---- closing ------------------------------------------------------------

    /** Frames still queued die with the connection. */
    method DropConn()
      requires tx.Valid()
      modifies tx`frames, tx`bytes, tx`taken
      ensures tx.Valid() && tx.frames == [] && tx.accepted == old(tx.accepted)
    {
      tx.taken := tx.accepted;
      tx.frames, tx.bytes := [], 0;
      assert tx.accepted == tx.taken + [];
    }
  }
}
