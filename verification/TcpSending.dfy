/** What the client's stream transport (src/tcp.cpp, raw_send) does to the bytes it is
    offered, over whole runs of sends. The transport never looks at what it carries,
    so its state is stated for any kind of element: bytes, or the places they came
    from. */
module TcpSendings {
  import opened Frames

  const MAX_TX_PENDING: nat := 4 * 1024 * 1024

  /** Result of one send call: the kernel took n bytes, took none because it is
      full (late: the 200 ms budget is over; hurt: polling for room reported an
      error), or the connection is gone. */
  datatype SendEvent = Took(n: nat) | Full(late: bool, hurt: bool) | Closed | Failed

  datatype Tx<T> = Tx(pending: seq<T>, off: nat, written: seq<T>) {
    predicate Ok()
    {
      off <= |pending|
    }

    /** A backlog written to its end is thrown away at once. */
    predicate Tidy()
    {
      off < |pending| || (pending == [] && off == 0)
    }

    function Backlog(): seq<T>
      requires Ok()
    {
      pending[off..]
    }
  }

  datatype Outcome<T> = Outcome(ok: bool, tx: Tx<T>)

  /** How many of the remaining elements a send call that reports n takes. */
  function Portion(n: nat, remain: nat): (k: nat)
    requires remain > 0
    ensures 1 <= k <= remain
  {
    if n < 1 then 1 else if n > remain then remain else n
  }

  function Flushed<T>(tx: Tx<T>, script: seq<SendEvent>): (r: Outcome<T>)
    requires tx.Ok()
    ensures r.tx.Ok() && r.tx.Tidy() && r.tx.written + r.tx.Backlog() == tx.written + tx.Backlog()
    ensures tx.written <= r.tx.written
    decreases |script|
  {
    if tx.off == |tx.pending| then
      Outcome(true, Tx([], 0, tx.written))
    else if script == [] then Outcome(true, tx)
    else
      match script[0]
      case Took(n) =>
        var k := Portion(n, |tx.pending| - tx.off);
        var next := Tx(tx.pending, tx.off + k, tx.written + tx.pending[tx.off..tx.off + k]);
        assert next.written + next.Backlog() == tx.written + tx.Backlog();
        Flushed(next, script[1..])
      case Full(late, hurt) =>
        if late then Outcome(true, tx) else if hurt then Outcome(false, tx) else Flushed(tx, script[1..])
      case _ => Outcome(false, tx)
  }

  /** The direct path from position off of a frame on, with no backlog. */
  function Direct<T>(written: seq<T>, data: seq<T>, off: nat, script: seq<SendEvent>): (r: Outcome<T>)
    requires off <= |data|
    ensures r.tx.Ok() && r.tx.Tidy() && written <= r.tx.written
    ensures r.ok ==> r.tx.written + r.tx.Backlog() == written + data[off..]
    ensures !r.ok ==> r.tx.Backlog() == [] && |r.tx.written| < |written| + |data| - off && r.tx.written <= written + data[off..]
    decreases |script|
  {
    if off == |data| then Outcome(true, Tx([], 0, written))
    else if script == [] then Outcome(true, Tx(data[off..], 0, written))
    else
      match script[0]
      case Took(n) =>
        var k := Portion(n, |data| - off);
        assert written + data[off..] == written + data[off..off + k] + data[off + k..];
        Direct(written + data[off..off + k], data, off + k, script[1..])
      case Full(late, hurt) =>
        if late then Outcome(true, Tx(data[off..], 0, written))
        else if hurt then Outcome(false, Tx([], 0, written))
        else Direct(written, data, off, script[1..])
      case _ => Outcome(false, Tx([], 0, written))
  }

  predicate Overflows<T>(tx: Tx<T>, n: nat)
  {
    tx.off < |tx.pending| && |tx.pending| + n > MAX_TX_PENDING
  }

  /** raw_send: behind the backlog if there is one, else directly. */
  function Sent<T>(tx: Tx<T>, data: seq<T>, script: seq<SendEvent>): (r: Outcome<T>)
    requires tx.Ok()
    ensures r.tx.Ok() && r.tx.Tidy() && tx.written <= r.tx.written
  {
    if tx.off == |tx.pending| then Direct(tx.written, data, 0, script)
    else if Overflows(tx, |data|) then Outcome(false, tx)
    else Flushed(Tx(tx.Backlog() + data, 0, tx.written), script)
  }

  // ---- how much is written --------------------------------------------------------------

  /** How many elements the socket takes until it is full for good or fails: every send
      takes at least one. */
  function Room(script: seq<SendEvent>): nat
  {
    if script == [] then 0
    else
      match script[0]
      case Took(n) => (if n < 1 then 1 else n) + Room(script[1..])
      case Full(late, hurt) => if late || hurt then 0 else Room(script[1..])
      case _ => 0
  }

  /** Whether it fails rather than being full. */
  predicate Breaks(script: seq<SendEvent>)
  {
    script != [] &&
    match script[0]
    case Took(_) => Breaks(script[1..])
    case Full(late, hurt) => !late && (hurt || Breaks(script[1..]))
    case _ => true
  }

  function Min(a: nat, b: nat): nat
  {
    if a < b then a else b
  }

  /** What is known of a send from position off of some elements, with what is kept. */
  ghost predicate Takes<T>(start: seq<T>, all: seq<T>, off: nat, script: seq<SendEvent>, r: Outcome<T>, keeps: bool)
    requires off <= |all|
  {
    var n := off + Min(Room(script), |all| - off);
    && r.tx.Ok() && r.tx.written == start + all[off..n] && (r.ok <==> !(n < |all| && Breaks(script)))
    && r.tx.Backlog() == if r.ok || keeps then all[n..] else []
  }

  lemma TakesMore<T>(start: seq<T>, all: seq<T>, off: nat, script: seq<SendEvent>, r: Outcome<T>, keeps: bool)
    requires off < |all| && script != [] && script[0].Took?
    requires var k := Portion(script[0].n, |all| - off);
             Takes(start + all[off..off + k], all, off + k, script[1..], r, keeps)
    ensures Takes(start, all, off, script, r, keeps)
  {
    var k := Portion(script[0].n, |all| - off);
    var n := off + k + Min(Room(script[1..]), |all| - off - k);
    assert n == off + Min(Room(script), |all| - off);
    assert start + all[off..off + k] + all[off + k..n] == start + all[off..n];
  }

  lemma TakesNone<T>(start: seq<T>, all: seq<T>, off: nat, script: seq<SendEvent>, r: Outcome<T>, keeps: bool)
    requires off <= |all| && r.tx.Ok() && r.tx.written == start && r.tx.Backlog() == if r.ok || keeps then all[off..] else []
    requires if off == |all| then r.ok else Room(script) == 0 && r.ok == !Breaks(script)
    ensures Takes(start, all, off, script, r, keeps)
  {
    assert start + all[off..off] == start;
  }

  lemma {:induction false} FlushTakes<T>(tx: Tx<T>, script: seq<SendEvent>)
    requires tx.Ok()
    ensures Takes(tx.written, tx.pending, tx.off, script, Flushed(tx, script), true)
    decreases |script|
  {
    hide Takes;
    if tx.off < |tx.pending| && script != [] && script[0].Took? {
      var k := Portion(script[0].n, |tx.pending| - tx.off);
      FlushedStep(tx, script);
      hide Flushed;
      FlushTakes(Onward(tx, k), script[1..]);
      TakesMore(tx.written, tx.pending, tx.off, script, Flushed(tx, script), true);
    } else if tx.off < |tx.pending| && script != [] && script[0].Full? && !script[0].late && !script[0].hurt {
      FlushTakes(tx, script[1..]);
      Patient(tx.written, tx.pending, tx.off, script, Flushed(tx, script), true);
    } else {
      TakesNone(tx.written, tx.pending, tx.off, script, Flushed(tx, script), true);
    }
  }

  lemma Patient<T>(start: seq<T>, all: seq<T>, off: nat, script: seq<SendEvent>, r: Outcome<T>, keeps: bool)
    requires off <= |all| && script != [] && script[0].Full? && !script[0].late && !script[0].hurt
    requires Takes(start, all, off, script[1..], r, keeps)
    ensures Takes(start, all, off, script, r, keeps)
  {
  }

  lemma {:induction false} DirectTakes<T>(written: seq<T>, data: seq<T>, off: nat, script: seq<SendEvent>)
    requires off <= |data|
    ensures Takes(written, data, off, script, Direct(written, data, off, script), false)
    decreases |script|
  {
    hide Takes;
    if off < |data| && script != [] && script[0].Took? {
      var k := Portion(script[0].n, |data| - off);
      DirectStep(written, data, off, script);
      hide Direct;
      DirectTakes(written + data[off..off + k], data, off + k, script[1..]);
      TakesMore(written, data, off, script, Direct(written, data, off, script), false);
    } else if off < |data| && script != [] && script[0].Full? && !script[0].late && !script[0].hurt {
      DirectTakes(written, data, off, script[1..]);
      Patient(written, data, off, script, Direct(written, data, off, script), false);
    } else {
      TakesNone(written, data, off, script, Direct(written, data, off, script), false);
    }
  }

  /** A flush writes as much of the backlog as there is room for, keeps the rest, and
      fails exactly when the socket does with some left. */
  lemma FlushedTakes<T>(tx: Tx<T>, script: seq<SendEvent>)
    requires tx.Ok()
    ensures var r, n := Flushed(tx, script), Min(Room(script), |tx.Backlog()|);
            && r.tx.written == tx.written + tx.Backlog()[..n] && r.tx.Backlog() == tx.Backlog()[n..]
            && (r.ok <==> !(n < |tx.Backlog()| && Breaks(script)))
  {
    FlushTakes(tx, script);
    hide Flushed, Room, Breaks;
  }

  /** A send writes as much of backlog and frame as there is room for, unless the backlog
      is too long. It fails in that case, and when the socket fails with some left; only
      the direct path then forgets the rest. */
  lemma SentTakes<T>(tx: Tx<T>, data: seq<T>, script: seq<SendEvent>)
    requires tx.Ok()
    ensures var r, all, direct := Sent(tx, data, script), tx.Backlog() + data, tx.off == |tx.pending|;
            var n := Min(Room(script), |all|);
            if Overflows(tx, |data|) then r == Outcome(false, tx)
            else
              && r.tx.written == tx.written + all[..n]
              && (r.ok <==> !(n < |all| && Breaks(script)))
              && r.tx.Backlog() == if r.ok || !direct then all[n..] else []
  {
    if tx.off == |tx.pending| {
      DirectTakes(tx.written, data, 0, script);
      assert tx.Backlog() + data == data;
    } else {
      FlushedTakes(Tx(tx.Backlog() + data, 0, tx.written), script);
    }
    hide Flushed, Direct, Room, Breaks;
  }

  // ---- runs ---------------------------------------------------------------------------

  /** One raw_send call: the frame, and what the socket answered. */
  datatype Call<T> = Call(data: seq<T>, script: seq<SendEvent>)

  function SendAll<T>(calls: seq<Call<T>>): (tx: Tx<T>)
    ensures tx.Ok() && tx.Tidy()
  {
    if calls == [] then Tx([], 0, [])
    else Sent(SendAll(calls[..|calls| - 1]), calls[|calls| - 1].data, calls[|calls| - 1].script).tx
  }

  /** All that was offered, end to end. */
  function Offered<T>(calls: seq<Call<T>>): seq<T>
  {
    if calls == [] then [] else Offered(calls[..|calls| - 1]) + calls[|calls| - 1].data
  }

  /** The frames offered. */
  function FramesOf(calls: seq<Call<byte>>): (fs: seq<seq<byte>>)
    ensures |fs| == |calls|
  {
    seq(|calls|, i requires 0 <= i < |calls| => calls[i].data)
  }

  lemma FramesMore(calls: seq<Call<byte>>, c: Call<byte>)
    ensures FramesOf(calls + [c]) == FramesOf(calls) + [c.data]
  {
  }

  lemma {:induction false} OfferedIsConcat(calls: seq<Call<byte>>)
    ensures Offered(calls) == Concat(FramesOf(calls))
  {
    if calls != [] {
      var front, c := calls[..|calls| - 1], calls[|calls| - 1];
      OfferedIsConcat(front);
      assert calls == front + [c];
      FramesMore(front, c);
      ConcatAppend(FramesOf(front), c.data);
    }
  }

  /** A send loses bytes when it returns false on the direct path, where the rest of
      the frame is forgotten, or because the backlog is too long. A flush that fails
      keeps the frame in the backlog. */
  predicate Loses<T>(tx: Tx<T>, c: Call<T>)
    requires tx.Ok()
  {
    c.data != [] && !Sent(tx, c.data, c.script).ok && (tx.off == |tx.pending| || Overflows(tx, |c.data|))
  }

  predicate Lost<T>(calls: seq<Call<T>>)
  {
    calls != [] && (Lost(calls[..|calls| - 1]) || Loses(SendAll(calls[..|calls| - 1]), calls[|calls| - 1]))
  }

  /** How many elements were taken in, written or kept, up to and with the first send
      that lost some. */
  function Kept<T>(calls: seq<Call<T>>): nat
  {
    if calls == [] then 0
    else if Lost(calls[..|calls| - 1]) then Kept(calls[..|calls| - 1])
    else |SendAll(calls).written| + |SendAll(calls).Backlog()|
  }

  function Carried<T>(calls: seq<Call<T>>): seq<T>
  {
    SendAll(calls).written + SendAll(calls).Backlog()
  }

  /** An element stands in the offered stream behind position i. */
  ghost predicate ComesLater<T>(x: T, offered: seq<T>, i: nat)
  {
    exists q :: i < q < |offered| && offered[q] == x
  }

  /** What one send adds to the bytes carried: the frame, part of it, or nothing. */
  lemma SentAdds<T>(tx: Tx<T>, c: Call<T>) returns (n: nat)
    requires tx.Ok()
    ensures n <= |c.data|
    ensures var r := Sent(tx, c.data, c.script).tx;
            r.written + r.Backlog() == tx.written + tx.Backlog() + c.data[..n]
    ensures Loses(tx, c) <==> n < |c.data|
  {
    var r := Sent(tx, c.data, c.script);
    if tx.off == |tx.pending| {
      assert c.data[0..] == c.data;
      n := |r.tx.written| + |r.tx.Backlog()| - |tx.written|;
      assert tx.written + tx.Backlog() == tx.written;
      if !r.ok {
        assert r.tx.written == tx.written + c.data[..n];
      } else {
        assert c.data[..n] == c.data;
      }
    } else if Overflows(tx, |c.data|) {
      n := 0;
      assert tx.written + tx.Backlog() + [] == tx.written + tx.Backlog();
    } else {
      n := |c.data|;
      var joined := Tx(tx.Backlog() + c.data, 0, tx.written);
      assert joined.Backlog() == tx.Backlog() + c.data && c.data[..n] == c.data;
    }
  }

  /** Up to Kept the bytes carried are the bytes offered; from there on every one was
      offered at a later place. */
  lemma {:induction false} CarriedInRun<T>(calls: seq<Call<T>>)
    ensures var all, offered, k := Carried(calls), Offered(calls), Kept(calls);
            && k <= |all| <= |offered| && all[..k] == offered[..k]
            && (!Lost(calls) ==> k == |all| == |offered|)
            && (Lost(calls) ==> |all| < |offered|)
            && forall i :: k <= i < |all| ==> ComesLater(all[i], offered, i)
  {
    if calls != [] {
      var front, c := calls[..|calls| - 1], calls[|calls| - 1];
      CarriedInRun(front);
      var n := SentAdds(SendAll(front), c);
      CarriedStep(Carried(front), Offered(front), Kept(front), Lost(front), c.data, n);
      assert Carried(calls) == Carried(front) + c.data[..n];
    }
  }

  lemma CarriedStep<T>(all: seq<T>, offered: seq<T>, k: nat, lost: bool, data: seq<T>, n: nat)
    requires n <= |data| && k <= |all| <= |offered| && all[..k] == offered[..k]
    requires if lost then |all| < |offered| else k == |all| == |offered|
    requires forall i :: k <= i < |all| ==> ComesLater(all[i], offered, i)
    ensures var all', offered', k' := all + data[..n], offered + data, if lost then k else |all| + n;
            && k' <= |all'| <= |offered'| && all'[..k'] == offered'[..k']
            && (if lost || n < |data| then |all'| < |offered'| else k' == |all'| == |offered'|)
            && forall i :: k' <= i < |all'| ==> ComesLater(all'[i], offered', i)
  {
    var all', offered', k' := all + data[..n], offered + data, if lost then k else |all| + n;
    if lost {
      assert all'[..k] == all[..k] && offered'[..k] == offered[..k];
    } else {
      assert all == offered by { assert all[..k] == all && offered[..k] == offered; }
      assert all'[..k'] == all' && offered'[..k'] == offered + data[..n];
    }
    forall i | k' <= i < |all'|
      ensures ComesLater(all'[i], offered', i)
    {
      if i < |all| {
        var q :| i < q < |offered| && all[i] == offered[q];
        assert all'[i] == offered'[q];
      } else {
        var q := |offered| + (i - |all|);
        assert all'[i] == data[i - |all|] == offered'[q];
      }
    }
  }

  ghost predicate Distinct<T>(s: seq<T>)
  {
    forall i, j :: 0 <= i < j < |s| ==> s[i] != s[j]
  }

  /** When elements can be told apart: the first n written are the first n offered
      exactly when nothing of a later send is among them. */
  lemma WrittenInPlaceIff<T>(calls: seq<Call<T>>, n: nat)
    requires Distinct(Offered(calls)) && n <= |SendAll(calls).written|
    ensures SendAll(calls).written[..n] <= Offered(calls) <==> n <= Kept(calls)
  {
    CarriedInRun(calls);
    var all, offered, k := Carried(calls), Offered(calls), Kept(calls);
    var w := SendAll(calls).written[..n];
    assert w == all[..n];
    if n <= k {
      assert all[..n] == all[..k][..n] == offered[..k][..n] == offered[..n];
    } else {
      var q :| k < q < |offered| && all[k] == offered[q];
      assert w[k] == all[k];
    }
  }

  /** For any elements, one direction of it. */
  lemma WrittenIsPrefix<T>(calls: seq<Call<T>>, n: nat)
    requires n <= |SendAll(calls).written| && n <= Kept(calls)
    ensures n <= |Offered(calls)| && SendAll(calls).written[..n] == Offered(calls)[..n]
  {
    CarriedInRun(calls);
    var all, offered, k := Carried(calls), Offered(calls), Kept(calls);
    assert SendAll(calls).written[..n] == all[..n] == all[..k][..n] == offered[..k][..n] == offered[..n];
  }

  // ---- where the bytes came from -------------------------------------------------------

  /** A byte's place among the bytes offered. */
  datatype Place = Place(call: nat, pos: nat)

  /** The same run with every byte replaced by its place. */
  function Stamped(calls: seq<Call<byte>>): (r: seq<Call<Place>>)
    ensures |r| == |calls|
  {
    if calls == [] then []
    else Stamped(calls[..|calls| - 1]) + [StampedCall(|calls| - 1, calls[|calls| - 1])]
  }

  function StampedCall(i: nat, c: Call<byte>): Call<Place>
  {
    Call(seq(|c.data|, j requires 0 <= j < |c.data| => Place(i, j)), c.script)
  }

  /** The bytes are those that stood at these places. */
  ghost predicate From(bytes: seq<byte>, places: seq<Place>, calls: seq<Call<byte>>)
  {
    && |bytes| == |places|
    && forall i :: 0 <= i < |places| ==>
         places[i].call < |calls| && places[i].pos < |calls[places[i].call].data|
         && bytes[i] == calls[places[i].call].data[places[i].pos]
  }

  ghost predicate TxFrom(b: Tx<byte>, p: Tx<Place>, calls: seq<Call<byte>>)
  {
    b.off == p.off && From(b.pending, p.pending, calls) && From(b.written, p.written, calls)
  }

  lemma FromSlice(bytes: seq<byte>, places: seq<Place>, i: nat, j: nat, calls: seq<Call<byte>>)
    requires From(bytes, places, calls) && i <= j <= |bytes|
    ensures |bytes| == |places| && From(bytes[i..j], places[i..j], calls)
  {
  }

  lemma FromTail(bytes: seq<byte>, places: seq<Place>, i: nat, calls: seq<Call<byte>>)
    requires From(bytes, places, calls) && i <= |bytes|
    ensures |bytes| == |places| && From(bytes[i..], places[i..], calls) && From([], [], calls)
  {
  }

  lemma FromAppend(b: seq<byte>, p: seq<Place>, b': seq<byte>, p': seq<Place>, calls: seq<Call<byte>>)
    requires From(b, p, calls) && From(b', p', calls)
    ensures From(b + b', p + p', calls)
  {
  }

  function Onward<T>(tx: Tx<T>, k: nat): (r: Tx<T>)
    requires tx.off + k <= |tx.pending|
    ensures r.Ok()
  {
    Tx(tx.pending, tx.off + k, tx.written + tx.pending[tx.off..tx.off + k])
  }

  lemma OnwardAlike(b: Tx<byte>, p: Tx<Place>, k: nat, calls: seq<Call<byte>>)
    requires TxFrom(b, p, calls) && b.off + k <= |b.pending|
    ensures p.off + k <= |p.pending| && TxFrom(Onward(b, k), Onward(p, k), calls)
  {
    FromSlice(b.pending, p.pending, b.off, b.off + k, calls);
    FromAppend(b.written, p.written, b.pending[b.off..b.off + k], p.pending[p.off..p.off + k], calls);
    hide From;
  }

  /** One send call of the flush, and one of the direct path. */
  lemma FlushedStep<T>(tx: Tx<T>, script: seq<SendEvent>)
    requires tx.off < |tx.pending| && script != [] && script[0].Took?
    ensures var k := Portion(script[0].n, |tx.pending| - tx.off);
            Flushed(tx, script) == Flushed(Onward(tx, k), script[1..])
  {
  }

  lemma DirectStep<T>(written: seq<T>, data: seq<T>, off: nat, script: seq<SendEvent>)
    requires off < |data| && script != [] && script[0].Took?
    ensures var k := Portion(script[0].n, |data| - off);
            Direct(written, data, off, script) == Direct(written + data[off..off + k], data, off + k, script[1..])
  {
  }

  lemma {:induction false} FlushedAlike(b: Tx<byte>, p: Tx<Place>, script: seq<SendEvent>, calls: seq<Call<byte>>)
    requires TxFrom(b, p, calls) && b.Ok()
    ensures p.Ok() && Flushed(b, script).ok == Flushed(p, script).ok
    ensures TxFrom(Flushed(b, script).tx, Flushed(p, script).tx, calls)
    decreases |script|
  {
    FromTail(b.pending, p.pending, b.off, calls);
    hide From;
    if b.off < |b.pending| && script != [] && script[0].Took? {
      var k := Portion(script[0].n, |b.pending| - b.off);
      FlushedStep(b, script);
      FlushedStep(p, script);
      hide Flushed, TxFrom, Onward;
      OnwardAlike(b, p, k, calls);
      FlushedAlike(Onward(b, k), Onward(p, k), script[1..], calls);
    } else if b.off < |b.pending| && script != [] && script[0].Full? && !script[0].late && !script[0].hurt {
      FlushedAlike(b, p, script[1..], calls);
    }
  }

  lemma {:induction false} DirectAlike(bw: seq<byte>, pw: seq<Place>, bd: seq<byte>, pd: seq<Place>, off: nat,
                                       script: seq<SendEvent>, calls: seq<Call<byte>>)
    requires From(bw, pw, calls) && From(bd, pd, calls) && off <= |bd|
    ensures |pd| == |bd| && Direct(bw, bd, off, script).ok == Direct(pw, pd, off, script).ok
    ensures TxFrom(Direct(bw, bd, off, script).tx, Direct(pw, pd, off, script).tx, calls)
    decreases |script|
  {
    FromTail(bd, pd, off, calls);
    hide From;
    if off < |bd| && script != [] && script[0].Took? {
      var k := Portion(script[0].n, |bd| - off);
      DirectStep(bw, bd, off, script);
      DirectStep(pw, pd, off, script);
      hide Direct;
      FromSlice(bd, pd, off, off + k, calls);
      FromAppend(bw, pw, bd[off..off + k], pd[off..off + k], calls);
      DirectAlike(bw + bd[off..off + k], pw + pd[off..off + k], bd, pd, off + k, script[1..], calls);
    } else if off < |bd| && script != [] && script[0].Full? && !script[0].late && !script[0].hurt {
      DirectAlike(bw, pw, bd, pd, off, script[1..], calls);
    }
  }

  lemma SentAlike(b: Tx<byte>, p: Tx<Place>, bc: Call<byte>, pc: Call<Place>, calls: seq<Call<byte>>)
    requires TxFrom(b, p, calls) && b.Ok() && From(bc.data, pc.data, calls) && bc.script == pc.script
    ensures p.Ok() && TxFrom(Sent(b, bc.data, bc.script).tx, Sent(p, pc.data, pc.script).tx, calls)
    ensures Loses(b, bc) <==> Loses(p, pc)
  {
    hide Flushed, Direct;
    if b.off == |b.pending| {
      DirectAlike(b.written, p.written, bc.data, pc.data, 0, bc.script, calls);
    } else if !Overflows(b, |bc.data|) {
      FlushedAlike(Tx(b.Backlog() + bc.data, 0, b.written), Tx(p.Backlog() + pc.data, 0, p.written), bc.script, calls);
    }
  }

  lemma FromMore(b: Tx<byte>, p: Tx<Place>, calls: seq<Call<byte>>, c: Call<byte>)
    requires TxFrom(b, p, calls)
    ensures TxFrom(b, p, calls + [c])
  {
  }

  ghost predicate Alike(calls: seq<Call<byte>>, places: seq<Call<Place>>)
  {
    && TxFrom(SendAll(calls), SendAll(places), calls)
    && From(Offered(calls), Offered(places), calls)
    && Lost(calls) == Lost(places)
    && Kept(calls) == Kept(places)
  }

  lemma AlikeStep(front: seq<Call<byte>>, places: seq<Call<Place>>, c: Call<byte>)
    requires Alike(front, places)
    ensures Alike(front + [c], places + [StampedCall(|front|, c)])
  {
    var pc := StampedCall(|front|, c);
    hide SendAll, Offered, Lost, Kept, Sent, Loses, From, TxFrom, StampedCall;
    FromMore(SendAll(front), SendAll(places), front, c);
    OfferedAlike(front, places, c, pc);
    RunStep(front, c);
    RunStep(places, pc);
    SameScript(|front|, c);
    SentAlike(SendAll(front), SendAll(places), c, pc, front + [c]);
    LengthsAlike(SendAll(front + [c]), SendAll(places + [pc]), front + [c]);
  }

  lemma SameScript(i: nat, c: Call<byte>)
    ensures StampedCall(i, c).script == c.script
  {
  }

  /** The transport does with the bytes what it does with their places. */
  lemma {:induction false} RunAlike(calls: seq<Call<byte>>)
    ensures Alike(calls, Stamped(calls))
  {
    if calls == [] {
      return;
    }
    var front, c := calls[..|calls| - 1], calls[|calls| - 1];
    assert calls == front + [c] && Stamped(calls) == Stamped(front) + [StampedCall(|front|, c)];
    hide *;
    RunAlike(front);
    AlikeStep(front, Stamped(front), c);
  }

  lemma RunStep<T>(front: seq<Call<T>>, c: Call<T>)
    ensures var calls := front + [c];
            && SendAll(calls) == Sent(SendAll(front), c.data, c.script).tx
            && Offered(calls) == Offered(front) + c.data
            && (Lost(calls) <==> Lost(front) || Loses(SendAll(front), c))
            && Kept(calls) == if Lost(front) then Kept(front) else |SendAll(calls).written| + |SendAll(calls).Backlog()|
  {
    assert (front + [c])[..|front|] == front;
    hide Sent, Loses;
  }

  lemma LengthsAlike(b: Tx<byte>, p: Tx<Place>, calls: seq<Call<byte>>)
    requires TxFrom(b, p, calls) && b.Ok()
    ensures p.Ok() && |b.written| == |p.written| && |b.Backlog()| == |p.Backlog()|
  {
  }

  lemma OfferedAlike(front: seq<Call<byte>>, places: seq<Call<Place>>, c: Call<byte>, pc: Call<Place>)
    requires From(Offered(front), Offered(places), front) && pc == StampedCall(|front|, c)
    ensures From(c.data, pc.data, front + [c])
    ensures From(Offered(front) + c.data, Offered(places) + pc.data, front + [c])
  {
    hide Offered;
  }

  /** Places can be told apart. */
  lemma {:induction false} PlacesAreDistinct(calls: seq<Call<byte>>)
    ensures Distinct(Offered(Stamped(calls)))
    ensures forall i :: 0 <= i < |Offered(Stamped(calls))| ==> Offered(Stamped(calls))[i].call < |calls|
  {
    if calls != [] {
      var front, c := calls[..|calls| - 1], calls[|calls| - 1];
      PlacesAreDistinct(front);
      assert Stamped(calls)[..|front|] == Stamped(front);
    }
  }

  /** The places of the bytes written. */
  function Places(calls: seq<Call<byte>>): seq<Place>
  {
    SendAll(Stamped(calls)).written
  }

  /** The first n bytes written are the first n offered, each at its own place. */
  ghost predicate InPlace(calls: seq<Call<byte>>, n: nat)
  {
    n <= |Places(calls)| && Places(calls)[..n] <= Offered(Stamped(calls))
  }

  /** This holds exactly when no byte of a frame offered after a lossy send is among
      them; and then they are the bytes offered. */
  lemma InPlaceIff(calls: seq<Call<byte>>, n: nat)
    requires n <= |SendAll(calls).written|
    ensures InPlace(calls, n) <==> n <= Kept(calls)
    ensures InPlace(calls, n) ==> n <= |Offered(calls)| && SendAll(calls).written[..n] == Offered(calls)[..n]
  {
    RunAlike(calls);
    PlacesAreDistinct(calls);
    WrittenInPlaceIff(Stamped(calls), n);
    if n <= Kept(calls) {
      WrittenIsPrefix(calls, n);
    }
  }
}
