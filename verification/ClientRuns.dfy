/** Any run of one client connection (src/UDP.cpp): the numbers of its frames, its
    replay window, both directions joined with the server's, and the server values it
    has stored. */
module ClientRuns {
  import opened Text
  import opened Replay
  import opened Protocol
  import opened ServerSpec
  import opened ServerRuns
  import opened ServerCounting
  import opened Worlds
  import C = ClientSpec

  /** The happenings of one connection, one after another, and all frames sent. */
  function ClientRun(c: C.Client, hs: seq<Happening>): C.Act
  {
    if hs == [] then C.Act(c, [])
    else
      var before := ClientRun(c, hs[..|hs| - 1]);
      before.Then(ClientAct(before.c, hs[|hs| - 1]))
  }

  /** At most n frames numbered from a client's state to the next. */
  ghost predicate Steps(c: C.Client, a: C.Act, n: nat)
  {
    && c.seqNo <= a.c.seqNo <= c.seqNo + n && a.c.replay == c.replay
    && Rising(NumbersOf(a.sent)) && Within(NumbersOf(a.sent), c.seqNo, a.c.seqNo)
    && Within(NumbersOf(a.sent), 0, SEQ_REKEY_LIMIT)
  }

  lemma Idle(c: C.Client, n: nat)
    ensures Steps(c, C.Act(c, []), n)
  {
  }

  lemma SendSteps(c: C.Client, typ: MsgType, inner: Inner, clear: Clear, net: C.Net)
    requires c.seqNo + 1 < SEQ_WORD
    ensures Steps(c, C.Send(c, typ, inner, clear, net), 1)
  {
  }

  /** A change that leaves number and window alone, before and after. */
  lemma Around(c: C.Client, d: C.Client, a: C.Act, e: C.Client, n: nat)
    requires d.seqNo == c.seqNo && d.replay == c.replay && Steps(d, a, n)
    requires e.seqNo == a.c.seqNo && e.replay == a.c.replay
    ensures Steps(c, C.Act(e, a.sent), n)
  {
  }

  lemma StepsThen(c: C.Client, a: C.Act, b: C.Act, m: nat, n: nat)
    requires Steps(c, a, m) && Steps(a.c, b, n)
    ensures Steps(c, a.Then(b), m + n)
  {
    var xs, ys := NumbersOf(a.sent), NumbersOf(b.sent);
    assert NumbersOf(a.sent + b.sent) == xs + ys;
  }

  lemma StepsWider(c: C.Client, a: C.Act, m: nat, n: nat)
    requires Steps(c, a, m) && m <= n
    ensures Steps(c, a, n)
  {
  }

  lemma DeriveSteps(c: C.Client, e: Option<Priv>, dhOk: bool, net: C.Net)
    requires c.seqNo + 1 < SEQ_WORD
    ensures Steps(c, C.Derive(c, e, dhOk, net), 1)
  {
    Idle(c, 1);
    hide Steps, C.Send;
    if c.phase.Greeting? && c.helloOk && C.Waiting(c) && e.None? {
      Around(c, c, C.Act(c, []), C.Stop(c), 1);
    } else if c.phase.Greeting? && c.helloOk && C.Waiting(c) {
      var d := c.(dhPriv := e, dhCli := Some(Pub(e.value)));
      var hello := C.Send(d, MClientHello, InOther, ClientHello(Pub(e.value)), net);
      SendSteps(d, MClientHello, InOther, ClientHello(Pub(e.value)), net);
      Around(c, d, hello, C.Derive(c, e, dhOk, net).c, 1);
    }
  }

  lemma MessageSteps(c: C.Client, m: Option<IdentityMsg>, net: C.Net)
    requires c.seqNo + 1 < SEQ_WORD
    ensures Steps(c, C.Send(c.(phase := C.Identifying, identityMsg := m), MIdentity, InIdentity(m), Junk, net), 1)
  {
    hide Steps, C.Send;
    var d := c.(phase := C.Identifying, identityMsg := m);
    var sent := C.Send(d, MIdentity, InIdentity(m), Junk, net);
    SendSteps(d, MIdentity, InIdentity(m), Junk, net);
    Around(c, d, sent, sent.c, 1);
  }

  lemma IdentifySteps(c: C.Client, signOk: bool, net: C.Net)
    requires c.seqNo + 1 < SEQ_WORD
    ensures Steps(c, C.Identify(c, signOk, net), 1)
  {
    hide Steps, C.Send, C.BuildIdentity;
    Idle(c, 1);
    MessageSteps(c, C.BuildIdentity(c), net);
    Around(c, c, C.Act(c, []), C.Stop(c), 1);
  }

  lemma RepeatSteps(c: C.Client, first: C.Net, second: C.Net)
    requires c.seqNo + 2 < SEQ_WORD
    ensures Steps(c, C.Repeat(c, first, second), 2)
  {
    Idle(c, 2);
    Idle(c, 1);
    hide Steps, C.Send;
    var hello := if c.dhCli.None? then C.Act(c, []) else C.Send(c, MClientHello, InOther, ClientHello(c.dhCli.value), first);
    if c.dhCli.Some? {
      SendSteps(c, MClientHello, InOther, ClientHello(c.dhCli.value), first);
    }
    StepsBound(c, hello, 1);
    SendSteps(hello.c, MIdentity, InIdentity(c.identityMsg), Junk, second);
    StepsThen(c, hello, C.Send(hello.c, MIdentity, InIdentity(c.identityMsg), Junk, second), 1, 1);
  }

  lemma StepsBound(c: C.Client, a: C.Act, n: nat)
    requires Steps(c, a, n)
    ensures a.c.seqNo <= c.seqNo + n
  {
  }

  // ---- hearing ----------------------------------------------------------------------------

  /** A frame that reaches the client's replay window. */
  predicate ClientReaches(c: C.Client, f: Frame)
  {
    && f.hdr.version == (if c.tcp then V_TCP else V_UDP) && SealedType(f.hdr.typ)
    && c.encReady && Unseal(c.keyS2C, f).Some?
  }

  /** The client with that frame's number offered to its window. */
  function ClientHeard(c: C.Client, h: Happening): C.Client
  {
    if h.Hear? && ClientReaches(c, h.frame) then c.(replay := c.replay.Offer(h.frame.hdr.seqNo)) else c
  }

  lemma InnerSteps(c: C.Client, inner: Inner, net: C.Net)
    requires c.seqNo + 1 < SEQ_WORD
    ensures Steps(c, C.HandleInner(c, inner, net), 1)
  {
    Idle(c, 1);
    if inner.InHeart? {
      SendSteps(c, MHeartResponse, InHeartResponse, Junk, net);
    }
    hide C.Send;
  }

  lemma HearSteps(c: C.Client, f: Frame, net: C.Net, i: nat)
    requires c.seqNo + 1 < SEQ_WORD
    ensures Steps(ClientHeard(c, Happening.Hear(i, f, net)), C.HandleFrame(c, f, net), 1)
  {
    var d := ClientHeard(c, Happening.Hear(i, f, net));
    Idle(c, 1);
    Idle(d, 1);
    hide Steps, Unseal, C.HandleInner, C.HandleServerHello;
    if ClientReaches(c, f) {
      if c.replay.Accepts(f.hdr.seqNo) {
        InnerSteps(d, Unseal(c.keyS2C, f).value, net);
      } else {
        assert d == c;
      }
    } else if !SealedType(f.hdr.typ) && f.payload.Open? {
      HelloQuiet(c, f.payload.clear);
      Around(c, c, C.Act(c, []), C.HandleServerHello(c, f.payload.clear), 1);
    }
  }

  lemma HelloQuiet(c: C.Client, p: Clear)
    ensures C.HandleServerHello(c, p).seqNo == c.seqNo && C.HandleServerHello(c, p).replay == c.replay
  {
  }

  lemma ActSteps(c: C.Client, h: Happening)
    requires c.seqNo + 2 < SEQ_WORD
    ensures Steps(ClientHeard(c, h), ClientAct(c, h), 2)
  {
    Idle(c, 2);
    hide Steps, C.Send, C.Derive, C.Identify, C.Repeat, C.HandleFrame, ClientReaches;
    match h
    case Greet(_, net) =>
      SendSteps(c, MAuthHello, InOther, Hello(c.nonceC), net);
      Wider(c, C.Send(c, MAuthHello, InOther, Hello(c.nonceC), net));
    case Derive(_, e, dhOk, net) =>
      DeriveSteps(c, e, dhOk, net);
      Wider(c, C.Derive(c, e, dhOk, net));
    case Identify(_, signOk, net) =>
      IdentifySteps(c, signOk, net);
      Wider(c, C.Identify(c, signOk, net));
    case Repeat(_, first, second) => RepeatSteps(c, first, second);
    case Conclude(_) => Around(c, c, C.Act(c, []), C.Conclude(c), 2);
    case TimeOut(_) => Around(c, c, C.Act(c, []), C.TimeOut(c), 2);
    case Transmit(_, inner, net) =>
      SendSteps(c, MData, inner, Junk, net);
      SendSteps(c, MHeart, InHeart, Junk, net);
      Wider(c, C.Send(c, MData, inner, Junk, net));
      Wider(c, C.Send(c, MHeart, InHeart, Junk, net));
    case Leave(_, net) =>
      var bye := C.Send(c, MDisconnect, InDisconnect, Junk, net);
      SendSteps(c, MDisconnect, InDisconnect, Junk, net);
      Wider(c, bye);
      Around(c, c, bye, bye.c.(phase := C.Stopped), 2);
    case Hear(i, f, net) =>
      HearSteps(c, f, net, i);
      Wider(ClientHeard(c, h), ClientAct(c, h));
    case _ =>
  }

  lemma Wider(c: C.Client, a: C.Act)
    requires Steps(c, a, 1)
    ensures Steps(c, a, 2)
  {
  }

  // ---- one connection ---------------------------------------------------------------------

  /** Rising numbers below the re-key limit. */
  ghost predicate CountsFrom(c: C.Client, a: C.Act)
  {
    && c.seqNo <= a.c.seqNo
    && Rising(NumbersOf(a.sent)) && Within(NumbersOf(a.sent), c.seqNo, a.c.seqNo)
    && Within(NumbersOf(a.sent), 0, SEQ_REKEY_LIMIT)
  }

  /** All that a client sends during a connection carries rising numbers, plain frames
      and sealed ones in one count, while it makes fewer than 2^32 sends. */
  lemma {:induction false} ClientNumbersRise(c: C.Client, hs: seq<Happening>)
    requires c.seqNo + 2 * |hs| < SEQ_WORD
    ensures CountsFrom(c, ClientRun(c, hs)) && ClientRun(c, hs).c.seqNo <= c.seqNo + 2 * |hs|
  {
    if hs != [] {
      var before, h := ClientRun(c, hs[..|hs| - 1]), hs[|hs| - 1];
      ClientNumbersRise(c, hs[..|hs| - 1]);
      assert ClientRun(c, hs) == before.Then(ClientAct(before.c, h));
      hide ClientRun, ClientAct, ClientReaches, CountsFrom, Steps, ClientHeard;
      ActSteps(before.c, h);
      HeardNumber(before.c, h);
      CountsThen(c, before, ClientHeard(before.c, h), ClientAct(before.c, h));
    }
  }

  lemma HeardNumber(c: C.Client, h: Happening)
    ensures ClientHeard(c, h).seqNo == c.seqNo
  {
    hide ClientReaches;
  }

  lemma CountsThen(c: C.Client, before: C.Act, d: C.Client, more: C.Act)
    requires CountsFrom(c, before) && Steps(d, more, 2) && d.seqNo == before.c.seqNo
    ensures CountsFrom(c, before.Then(more)) && before.Then(more).c.seqNo <= before.c.seqNo + 2
  {
    assert NumbersOf(before.sent + more.sent) == NumbersOf(before.sent) + NumbersOf(more.sent);
  }

  /** The frames that reached the client's window, in order. */
  function ClientArrivals(c: C.Client, hs: seq<Happening>): seq<Frame>
  {
    if hs == [] then []
    else
      var front, h := hs[..|hs| - 1], hs[|hs| - 1];
      ClientArrivals(c, front) + (if h.Hear? && ClientReaches(ClientRun(c, front).c, h.frame) then [h.frame] else [])
  }

  lemma {:induction false} ClientWindow(c: C.Client, hs: seq<Happening>)
    requires c.replay == FRESH && c.seqNo + 2 * |hs| < SEQ_WORD
    ensures ClientRun(c, hs).c.replay == After(NumbersOf(ClientArrivals(c, hs)))
  {
    if hs != [] {
      var front, h := hs[..|hs| - 1], hs[|hs| - 1];
      var before := ClientRun(c, front);
      ClientWindow(c, front);
      ClientNumbersRise(c, front);
      ActSteps(before.c, h);
      hide ClientAct, ClientReaches, CountsFrom, Rising, Within;
      if h.Hear? && ClientReaches(before.c, h.frame) {
        MoreNumbers(ClientArrivals(c, front), h.frame);
        OneOffer(NumbersOf(ClientArrivals(c, front)), h.frame.hdr.seqNo);
      } else {
        assert ClientArrivals(c, hs) == ClientArrivals(c, front);
      }
    }
  }

  // ---- both ends ----------------------------------------------------------------------------

  /** Some of these frames, each at most once and in their order. */
  ghost predicate InOrder(xs: seq<Frame>, ys: seq<Frame>)
  {
    exists at: seq<nat> :: |at| == |xs| && Rising(at) && forall i :: 0 <= i < |xs| ==> at[i] < |ys| && xs[i] == ys[at[i]]
  }

  lemma InOrderRises(xs: seq<Frame>, ys: seq<Frame>)
    requires InOrder(xs, ys) && Rising(NumbersOf(ys))
    ensures Rising(NumbersOf(xs))
  {
    var at: seq<nat> :| |at| == |xs| && Rising(at) && forall i :: 0 <= i < |xs| ==> at[i] < |ys| && xs[i] == ys[at[i]];
    forall i, j | 0 <= i < j < |xs|
      ensures NumbersOf(xs)[i] < NumbersOf(xs)[j]
    {
      assert NumbersOf(ys)[at[i]] < NumbersOf(ys)[at[j]];
    }
  }

  /** A window that was offered rising numbers accepts the next. */
  lemma NextPasses(before: seq<Frame>, f: Frame)
    requires Rising(NumbersOf(before + [f]))
    ensures After(NumbersOf(before)).Accepts(f.hdr.seqNo)
  {
    var xs := NumbersOf(before + [f]);
    MoreNumbers(before, f);
    InOrderAllPass(xs, |before|);
    assert xs[..|before|] == NumbersOf(before);
  }

  /** Server to client, in order: the frame that reaches the client's window next is
      not refused, in any run of both sides since the session and the connection began. */
  lemma DownlinkNoneRefused(st: Server, k: PeerKey, admit: Event, es: seq<Event>, c: C.Client, hs: seq<Happening>, f: Frame)
    requires k !in st.sessions && k in Step(st, admit).sessions
    requires Stays(Step(st, admit), es, k) && (k.tcp ==> |es| < SEQ_WORD)
    requires c.replay == FRESH && c.seqNo + 2 * |hs| < SEQ_WORD
    requires ClientReaches(ClientRun(c, hs).c, f)
    requires InOrder(ClientArrivals(c, hs) + [f], LifeFrames(st, k, admit, es))
    ensures ClientRun(c, hs).c.replay.Accepts(f.hdr.seqNo)
  {
    hide *;
    LifeRises(st, k, admit, es);
    InOrderRises(ClientArrivals(c, hs) + [f], LifeFrames(st, k, admit, es));
    ClientWindow(c, hs);
    NextPasses(ClientArrivals(c, hs), f);
  }

  /** The frames handed over to the session's peer since it was admitted. */
  function LifeFrames(st: Server, k: PeerKey, admit: Event, es: seq<Event>): seq<Frame>
  {
    var before, after := FramesTo(st.out, k), FramesTo(Run(Step(st, admit), es).out, k);
    if |before| <= |after| then after[|before|..] else []
  }

  lemma LifeRises(st: Server, k: PeerKey, admit: Event, es: seq<Event>)
    requires k !in st.sessions && k in Step(st, admit).sessions
    requires Stays(Step(st, admit), es, k) && (k.tcp ==> |es| < SEQ_WORD)
    ensures Rising(NumbersOf(LifeFrames(st, k, admit, es)))
  {
    hide Step, Run, Stays, FramesTo, Rising, Within;
    LifeCounts(st, k, admit, es);
    AdmitSendsNothing(st, k, admit);
  }

  lemma AdmitSendsNothing(st: Server, k: PeerKey, admit: Event)
    requires k !in st.sessions && k in Step(st, admit).sessions
    ensures Step(st, admit).out == st.out
  {
    AddedIsFresh(st, admit, k);
    hide GetOrCreate;
    AdmitCounts(st, admit.key, admit.env.now, admit.env.victim);
  }

  /** Client to server, in order: likewise at the server, whatever other sessions do. */
  lemma UplinkNoneRefused(c: C.Client, hs: seq<Happening>, st: Server, k: PeerKey, admit: Event, es: seq<Event>, f: Frame)
    requires c.seqNo + 2 * |hs| < SEQ_WORD
    requires k !in st.sessions && k in Step(st, admit).sessions
    requires Stays(Step(st, admit), es, k) && (k.tcp ==> |es| < SEQ_WORD)
    requires k in Run(Step(st, admit), es).sessions && Reaches(Run(Step(st, admit), es), k, f)
    requires InOrder(Arrivals(Step(st, admit), k, es) + [f], ClientRun(c, hs).sent)
    ensures Run(Step(st, admit), es).sessions[k].replay.Accepts(f.hdr.seqNo)
  {
    LifeCounts(st, k, admit, es);
    ClientNumbersRise(c, hs);
    hide Step, Run, Stays, ClientRun, Arrivals, Reaches, CountsUp, Rising, Within, InOrder;
    InOrderRises(Arrivals(Step(st, admit), k, es) + [f], ClientRun(c, hs).sent);
    NextPasses(Arrivals(Step(st, admit), k, es), f);
  }

  // ---- late hellos ----------------------------------------------------------------------------

  /** A ServerHello that the client stores. */
  predicate Takes(c: C.Client, h: Happening)
  {
    && h.Hear? && h.frame.hdr.version == (if c.tcp then V_TCP else V_UDP) && h.frame.hdr.typ.MServerHello?
    && h.frame.payload.Open? && h.frame.payload.clear.ServerHello?
  }

  /** The last ServerHello taken in during a run. */
  function LastHello(c: C.Client, hs: seq<Happening>): (p: Option<Clear>)
    ensures p.Some? ==> p.value.ServerHello?
  {
    if hs == [] then None
    else if Takes(c, hs[|hs| - 1]) then Some(hs[|hs| - 1].frame.payload.clear)
    else LastHello(c, hs[..|hs| - 1])
  }

  predicate PastGreeting(c: C.Client)
  {
    c.encReady && !c.phase.Greeting?
  }

  /** The keys stay, and what is stored is the hello's, if there was one. */
  predicate Stores(c: C.Client, d: C.Client, p: Option<Clear>)
    requires p.Some? ==> p.value.ServerHello?
  {
    && d.tcp == c.tcp && d.keyC2S == c.keyC2S && d.keyS2C == c.keyS2C && (PastGreeting(c) ==> PastGreeting(d))
    && d.nonceS == (if p.Some? then Some(p.value.nonceS) else c.nonceS)
    && d.dhSrv == (if p.Some? then Some(p.value.dhSrv) else c.dhSrv)
  }

  lemma SendStores(c: C.Client, typ: MsgType, inner: Inner, clear: Clear, net: C.Net)
    ensures var d := C.Send(c, typ, inner, clear, net).c;
            Stores(c, d, None) && d.phase == c.phase && d.encReady == c.encReady
  {
    hide SealedType;
  }

  lemma InnerQuiet(c: C.Client, inner: Inner, net: C.Net)
    ensures Stores(c, C.HandleInner(c, inner, net).c, None)
  {
    hide C.Send;
    if inner.InHeart? {
      SendStores(c, MHeartResponse, InHeartResponse, Junk, net);
    }
  }

  lemma OfferStores(c: C.Client, n: nat, d: C.Client)
    requires Stores(c.(replay := c.replay.Offer(n)), d, None)
    ensures Stores(c, d, None)
  {
  }

  lemma InnerStores(c: C.Client, n: nat, inner: Inner, net: C.Net)
    ensures Stores(c, C.HandleInner(c.(replay := c.replay.Offer(n)), inner, net).c, None)
  {
    hide Stores, C.HandleInner;
    InnerQuiet(c.(replay := c.replay.Offer(n)), inner, net);
    OfferStores(c, n, C.HandleInner(c.(replay := c.replay.Offer(n)), inner, net).c);
  }

  lemma HelloStores(c: C.Client, p: Clear)
    ensures Stores(c, C.HandleServerHello(c, p), if p.ServerHello? then Some(p) else None)
  {
  }

  lemma NothingStored(c: C.Client)
    ensures Stores(c, c, None)
  {
  }

  function Taken(c: C.Client, h: Happening): (p: Option<Clear>)
    ensures p.Some? ==> p.value.ServerHello?
  {
    if Takes(c, h) then Some(h.frame.payload.clear) else None
  }

  lemma HearStores(c: C.Client, i: nat, f: Frame, net: C.Net)
    ensures Stores(c, C.HandleFrame(c, f, net).c, Taken(c, Happening.Hear(i, f, net)))
  {
    assert !SealedType(MServerHello);
    hide SealedType, C.HandleInner, C.HandleServerHello, Unseal, Stores;
    NothingStored(c);
    if SealedType(f.hdr.typ) {
      if Unseal(c.keyS2C, f).Some? {
        InnerStores(c, f.hdr.seqNo, Unseal(c.keyS2C, f).value, net);
      }
    } else if f.payload.Open? {
      HelloStores(c, f.payload.clear);
    }
  }

  lemma RepeatStores(c: C.Client, first: C.Net, second: C.Net)
    ensures Stores(c, C.Repeat(c, first, second).c, None)
  {
    hide C.Send;
    var hello := if c.dhCli.None? then C.Act(c, []) else C.Send(c, MClientHello, InOther, ClientHello(c.dhCli.value), first);
    if c.dhCli.Some? {
      SendStores(c, MClientHello, InOther, ClientHello(c.dhCli.value), first);
    }
    SendStores(hello.c, MIdentity, InIdentity(c.identityMsg), Junk, second);
  }

  lemma IdentifyStores(c: C.Client, signOk: bool, net: C.Net)
    ensures Stores(c, C.Identify(c, signOk, net).c, None)
  {
    hide C.Send, C.BuildIdentity;
    var m := C.BuildIdentity(c);
    SendStores(c.(phase := C.Identifying, identityMsg := m), MIdentity, InIdentity(m), Junk, net);
  }

  lemma StoredStep(c: C.Client, h: Happening)
    requires PastGreeting(c)
    ensures Stores(c, ClientAct(c, h).c, Taken(c, h))
  {
    hide C.Send, C.Identify, C.Repeat, C.HandleFrame;
    match h
    case Identify(_, signOk, net) => IdentifyStores(c, signOk, net);
    case Repeat(_, first, second) => RepeatStores(c, first, second);
    case Transmit(_, inner, net) =>
      SendStores(c, MData, inner, Junk, net);
      SendStores(c, MHeart, InHeart, Junk, net);
    case Leave(_, net) => SendStores(c, MDisconnect, InDisconnect, Junk, net);
    case Hear(i, f, net) => HearStores(c, i, f, net);
    case _ =>
  }

  lemma {:induction false} StoredRun(c: C.Client, hs: seq<Happening>)
    requires PastGreeting(c)
    ensures PastGreeting(ClientRun(c, hs).c) && Stores(c, ClientRun(c, hs).c, LastHello(c, hs))
  {
    hide PastGreeting, ClientAct;
    if hs != [] {
      StoredRun(c, hs[..|hs| - 1]);
      StoredStep(ClientRun(c, hs[..|hs| - 1]).c, hs[|hs| - 1]);
    }
  }

  /** Once keys are derived they stay, and the server values stored beside them are
      still those they were derived from exactly when the last ServerHello taken in
      since, genuine or not, carried them again, or none came. */
  lemma StoredStaysIff(c: C.Client, hs: seq<Happening>)
    requires PastGreeting(c) && c.nonceS.Some? && c.dhSrv.Some?
    ensures var d, p := ClientRun(c, hs).c, LastHello(c, hs);
            && d.keyC2S == c.keyC2S && d.keyS2C == c.keyS2C
            && (d.nonceS == c.nonceS && d.dhSrv == c.dhSrv <==>
                  p.None? || (p.value.nonceS == c.nonceS.value && p.value.dhSrv == c.dhSrv.value))
  {
    StoredRun(c, hs);
  }
}
