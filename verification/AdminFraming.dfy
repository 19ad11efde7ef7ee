/** Length-prefixed messages between the controller and its agents
    (server/ServerAdmin/AdminWire.h). What a Framer hands out depends on the bytes
    alone, not on how they were chunked. */
module AdminFraming {
  import opened Text
  import opened Frames

  const MAX_MESSAGE: nat := 0x1_0000

  function Encode(m: seq<byte>): seq<byte>
    requires |m| <= MAX_MESSAGE
  {
    Be32(|m|) + m
  }

  function At32(b: seq<byte>): nat
    requires |b| >= 4
  {
    b[0] as nat * 0x100_0000 + b[1] as nat * 0x1_0000 + b[2] as nat * 0x100 + b[3] as nat
  }

  datatype Head = Wait | TooLong | Whole(message: seq<byte>, rest: seq<byte>)

  function Take(b: seq<byte>): Head
  {
    if |b| < 4 then Wait
    else if At32(b) > MAX_MESSAGE then TooLong
    else if |b| < 4 + At32(b) then Wait
    else Whole(b[4..4 + At32(b)], b[4 + At32(b)..])
  }

  /** All messages at the front of some bytes, and what is left. */
  datatype Reading = Reading(messages: seq<seq<byte>>, rest: seq<byte>)

  function Read(b: seq<byte>): Reading
    decreases |b|
  {
    match Take(b)
    case Whole(m, rest) => var r := Read(rest); Reading([m] + r.messages, r.rest)
    case _ => Reading([], b)
  }

  class Framer {
    var buf: seq<byte>
    var bad: bool
    ghost var fed: seq<byte>
    ghost var taken: seq<seq<byte>>

    /** Messages handed out and messages still buffered are those of all bytes fed. */
    ghost predicate Valid()
      reads this
    {
      && Read(fed) == Reading(taken + Read(buf).messages, Read(buf).rest)
      && (bad ==> Take(buf).TooLong?)
    }

    constructor ()
      ensures Valid() && fed == [] && taken == [] && !bad
    {
      buf, bad, fed, taken := [], false, [], [];
    }

    method Feed(data: seq<byte>)
      requires Valid()
      modifies this
      ensures Valid() && fed == old(fed) + data && taken == old(taken) && bad == old(bad)
    {
      hide Take, Read;
      ReadAppends(fed, data);
      ReadAppends(buf, data);
      Associative(taken, Read(buf).messages, Read(Read(buf).rest + data).messages);
      BadStays(buf, data);
      buf := buf + data;
      fed := fed + data;
    }

    method Next() returns (out: Option<seq<byte>>)
      requires Valid()
      modifies this
      ensures Valid() && fed == old(fed)
      ensures out.Some? ==> taken == old(taken) + [out.value] && bad == old(bad)
      ensures out.None? ==> taken == old(taken) == Read(fed).messages
      ensures out.None? ==> (bad <==> Take(Read(fed).rest).TooLong?)
    {
      if |buf| < 4 {
        return None;
      }
      var len := At32(buf);
      if len > MAX_MESSAGE {
        bad := true;
        return None;
      }
      if |buf| < 4 + len {
        return None;
      }
      var m := buf[4..4 + len];
      assert taken + ([m] + Read(buf[4 + len..]).messages) == taken + [m] + Read(buf[4 + len..]).messages;
      buf := buf[4 + len..];
      taken := taken + [m];
      return Some(m);
    }
  }

  lemma TakeAppends(b: seq<byte>, more: seq<byte>)
    ensures Take(b).Whole? ==> Take(b + more) == Whole(Take(b).message, Take(b).rest + more)
    ensures Take(b).TooLong? ==> Take(b + more).TooLong?
  {
    if |b| >= 4 && At32(b) <= MAX_MESSAGE && |b| >= 4 + At32(b) {
      var n := 4 + At32(b);
      assert (b + more)[4..n] == b[4..n] && (b + more)[n..] == b[n..] + more;
    }
  }

  lemma BadStays(b: seq<byte>, more: seq<byte>)
    ensures Take(b).TooLong? ==> Take(b + more).TooLong?
  {
    TakeAppends(b, more);
  }

  /** Reading some bytes and then more is reading all of them. */
  lemma {:induction false} ReadAppends(b: seq<byte>, more: seq<byte>)
    ensures var r := Read(b);
            var s := Read(r.rest + more);
            Read(b + more) == Reading(r.messages + s.messages, s.rest)
    decreases |b|
  {
    TakeAppends(b, more);
    TakeShrinks(b);
    hide Take;
    if Take(b).Whole? {
      var m, rest := Take(b).message, Take(b).rest;
      ReadAppends(rest, more);
      var r := Read(rest);
      Associative([m], r.messages, Read(r.rest + more).messages);
    }
  }

  lemma TakeShrinks(b: seq<byte>)
    ensures Take(b).Whole? ==> |Take(b).rest| < |b|
  {
  }

  lemma Associative(a: seq<seq<byte>>, b: seq<seq<byte>>, c: seq<seq<byte>>)
    ensures a + (b + c) == (a + b) + c
  {
  }

  function EncodeAll(ms: seq<seq<byte>>): seq<byte>
    requires forall i :: 0 <= i < |ms| ==> |ms[i]| <= MAX_MESSAGE
    decreases |ms|
  {
    if ms == [] then [] else Encode(ms[0]) + EncodeAll(ms[1..])
  }

  lemma TakeOfEncode(m: seq<byte>, more: seq<byte>)
    requires |m| <= MAX_MESSAGE
    ensures Take(Encode(m) + more) == Whole(m, more)
  {
    var b := Encode(m) + more;
    assert At32(b) == |m|;
    assert b[4..4 + |m|] == m && b[4 + |m|..] == more;
  }

  /** Reading what was sent gives the messages sent. */
  lemma {:induction false} ReadOfEncodeAll(ms: seq<seq<byte>>)
    requires forall i :: 0 <= i < |ms| ==> |ms[i]| <= MAX_MESSAGE
    ensures Read(EncodeAll(ms)) == Reading(ms, [])
    decreases |ms|
  {
    if ms != [] {
      TakeOfEncode(ms[0], EncodeAll(ms[1..]));
      ReadOfEncodeAll(ms[1..]);
    }
  }

  function Flat(chunks: seq<seq<byte>>): seq<byte>
    decreases |chunks|
  {
    if chunks == [] then [] else Flat(chunks[..|chunks| - 1]) + chunks[|chunks| - 1]
  }

  /** The receiver's loop over any chunks that make up the messages sent: exactly
      these messages come out, in order. */
  method ReceiveAll(ms: seq<seq<byte>>, chunks: seq<seq<byte>>) returns (got: seq<seq<byte>>)
    requires forall i :: 0 <= i < |ms| ==> |ms[i]| <= MAX_MESSAGE
    requires Flat(chunks) == EncodeAll(ms)
    ensures got == ms
  {
    var f := new Framer();
    got := [];
    for i := 0 to |chunks|
      invariant f.Valid() && fresh(f) && f.fed == Flat(chunks[..i]) && f.taken == got
      invariant i > 0 ==> got == Read(f.fed).messages
      invariant i == 0 ==> got == []
    {
      assert chunks[..i + 1][..i] == chunks[..i];
      f.Feed(chunks[i]);
      var m := f.Next();
      while m.Some?
        invariant f.Valid() && f.fed == Flat(chunks[..i + 1])
        invariant m.Some? ==> f.taken == got + [m.value]
        invariant m.None? ==> f.taken == got == Read(f.fed).messages
        decreases |Read(f.fed).messages| - |f.taken|, m.Some?
      {
        got := got + [m.value];
        m := f.Next();
      }
    }
    assert chunks[..|chunks|] == chunks;
    ReadOfEncodeAll(ms);
  }

  /** The results of send left over once n bytes are sent, if they suffice: each is a
      positive count, 0 for an interruption, or -1 for an error. */
  function Spent(n: nat, results: seq<int>): Option<seq<int>>
    decreases |results|
  {
    if n == 0 then Some(results)
    else if results == [] || results[0] < 0 || results[0] > n then None
    else Spent(n - results[0], results[1..])
  }

  function Sum(xs: seq<int>): int
  {
    if xs == [] then 0 else xs[0] + Sum(xs[1..])
  }

  predicate Counts(xs: seq<int>)
  {
    forall i :: 0 <= i < |xs| ==> xs[i] >= 0
  }

  /** They suffice exactly when some first few of them, none an error, add up to n. */
  lemma {:induction false} SpentIff(n: nat, results: seq<int>)
    ensures Spent(n, results).Some? <==> exists m :: 0 <= m <= |results| && Counts(results[..m]) && Sum(results[..m]) == n
    decreases |results|
  {
    if n == 0 {
      assert results[..0] == [];
    } else if results != [] && 0 <= results[0] <= n {
      SpentIff(n - results[0], results[1..]);
      if m :| 0 <= m <= |results| - 1 && Counts(results[1..][..m]) && Sum(results[1..][..m]) == n - results[0] {
        assert results[..m + 1] == [results[0]] + results[1..][..m];
        assert Counts(results[..m + 1]) && Sum(results[..m + 1]) == n;
      }
      if m :| 0 <= m <= |results| && Counts(results[..m]) && Sum(results[..m]) == n {
        assert m > 0 && results[..m][1..] == results[1..][..m - 1];
        assert Counts(results[1..][..m - 1]);
      }
    } else if m :| 0 <= m <= |results| && Counts(results[..m]) && Sum(results[..m]) == n {
      assert m > 0 && results[..m][0] == results[0];
      SumOfCounts(results[..m][1..]);
    }
  }

  lemma SumOfCounts(xs: seq<int>)
    requires Counts(xs)
    ensures Sum(xs) >= 0
  {
  }

  /** send_frame over partial writes. Each result of send is a positive count, 0 for
      an interruption, or -1 for an error. */
  method SendFrame(payload: seq<byte>, results: seq<int>) returns (ok: bool, wire: seq<byte>)
    ensures ok <==> |payload| <= MAX_MESSAGE && Spent(4, results).Some? && Spent(|payload|, Spent(4, results).value).Some?
    ensures ok ==> wire == Encode(payload)
    ensures |payload| <= MAX_MESSAGE ==> wire <= Encode(payload)
    ensures |payload| > MAX_MESSAGE ==> !ok && wire == []
  {
    wire := [];
    if |payload| > MAX_MESSAGE {
      return false, wire;
    }
    var parts := [Be32(|payload|), payload];
    var at: nat := 0;
    var p: nat := 0;
    assert results[0..] == results;
    while p < 2
      invariant 0 <= p <= 2 && at <= |results|
      invariant p == 0 ==> at == 0
      invariant p > 0 ==> Spent(4, results).Some?
      invariant p == 1 ==> Spent(4, results).value == results[at..]
      invariant p == 2 ==> Spent(|payload|, Spent(4, results).value).Some?
      invariant wire == (if p == 0 then [] else if p == 1 then parts[0] else parts[0] + parts[1])
    {
      var off: nat := 0;
      ghost var before := wire;
      ghost var start := results[at..];
      while off < |parts[p]|
        invariant off <= |parts[p]| && at <= |results|
        invariant wire == before + parts[p][..off]
        invariant Spent(|parts[p]|, start) == Spent(|parts[p]| - off, results[at..])
        decreases |results| - at
      {
        assert at < |results| ==> results[at..][0] == results[at] && results[at..][1..] == results[at + 1..];
        if at == |results| || results[at] < 0 || results[at] > |parts[p]| - off {
          PartialIsPrefix(before, parts[p], off, payload, p);
          return false, wire;
        }
        var w := results[at];
        at := at + 1;
        wire := wire + parts[p][off..off + w];
        assert parts[p][..off + w] == parts[p][..off] + parts[p][off..off + w];
        off := off + w;
      }
      assert parts[p][..off] == parts[p];
      p := p + 1;
    }
    return true, wire;
  }

  lemma PartialIsPrefix(before: seq<byte>, part: seq<byte>, off: nat, payload: seq<byte>, p: nat)
    requires |payload| <= MAX_MESSAGE && p < 2
    requires before == (if p == 0 then [] else Be32(|payload|)) && part == (if p == 0 then Be32(|payload|) else payload)
    requires off <= |part|
    ensures before + part[..off] <= Encode(payload)
  {
  }
}
