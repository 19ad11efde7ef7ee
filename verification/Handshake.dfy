/** The handshake, undisturbed: in every reachable world in which the server has room,
    a token for the source and an address to give, a client whose identity is on the
    register and a server that take each other's frames both end authenticated. */
module Handshake {
  import opened Text
  import opened Replay
  import opened Protocol
  import opened VipPool
  import opened RateLimiters
  import opened ServerSpec
  import opened ServerInv
  import opened ServerSteps
  import opened ServerMoves
  import opened ServerRuns
  import opened Worlds
  import S = ServerProgress
  import P = ClientProgress
  import L = ServerLedger
  import A = Agreement
  import N = ServerCounting
  import C = ClientSpec

  /** Client i with its account and nonce, the source it is seen from, the ephemeral
      keys and nonce made, and what else the server draws at each of its four steps. */
  datatype Meeting = Meeting(i: nat, account: C.Account, k: PeerKey, nonceC: Nonce, ephemeral: Priv,
                             atAdmit: Env, atHello: Env, atKeys: Env, atIdentity: Env)

  // ---- the frames ------------------------------------------------------------------------

  function Head(x: Meeting, typ: MsgType, seqNo: nat): Header
  {
    Header(S.Version(x.k), typ, seqNo)
  }

  function KeyOf(x: Meeting, dir: Direction): SessionKey
    requires x.atHello.ephemeral.Some?
  {
    S.KeyFor(dir, Pub(x.ephemeral), Pub(x.atHello.ephemeral.value), x.nonceC, x.atHello.nonceS)
  }

  function Message(x: Meeting): IdentityMsg
    requires x.atHello.ephemeral.Some? && x.account.identity.Some?
  {
    var text := IdentityText(x.nonceC, x.atHello.nonceS, Pub(x.ephemeral), Pub(x.atHello.ephemeral.value),
                             x.account.identity.value, x.account.clientId);
    IdentityMsg(if x.account.token == "" then 0 else 1, x.account.token, text, Signature(x.account.identity.value, text))
  }

  function Greeting(x: Meeting): Frame
  {
    Frame(Head(x, MAuthHello, 0), Open(Hello(x.nonceC)))
  }

  function Reply(x: Meeting, signKey: SigKey): Frame
    requires x.atHello.ephemeral.Some?
  {
    Frame(Head(x, MServerHello, 0), Open(S.ReplyTo(signKey, x.nonceC, x.atHello.nonceS, x.atHello.ephemeral.value)))
  }

  function ClientKey(x: Meeting): Frame
  {
    Frame(Head(x, MClientHello, 1), Open(ClientHello(Pub(x.ephemeral))))
  }

  function Identity(x: Meeting): Frame
    requires x.atHello.ephemeral.Some? && x.account.identity.Some?
  {
    Frame(Head(x, MIdentity, 2), Sealed(KeyOf(x, Tx), Head(x, MIdentity, 2), InIdentity(Some(Message(x)))))
  }

  function Welcome(x: Meeting, ip: nat, prefix: nat): Frame
    requires x.atHello.ephemeral.Some?
  {
    Frame(Head(x, MIdentityOk, 1), Sealed(KeyOf(x, Rx), Head(x, MIdentityOk, 1), InIdentityOk(ip, prefix)))
  }

  // ---- the server's side ---------------------------------------------------------------------

  /** Everything the server's side needs: the source is let in, has a token left, an
      ephemeral key and signatures can be made, and the identity is on the register or
      pays, is not refused and can be placed. */
  ghost predicate Welcoming(st: Server, x: Meeting)
  {
    var u := Step(st, Admit(x.k, x.atAdmit));
    && x.k !in st.sessions && VictimOk(st, x.k.ip, x.atAdmit.victim) && x.k in u.sessions
    && st.cfg.signKey.Some? && Allow(st.hsRl, x.k.ip, x.atHello.now).granted
    && x.atHello.ephemeral.Some? && x.atHello.ephemeral.value !in st.issued && x.atHello.signOk && x.atHello.sendOk
    && x.atKeys.dhOk && EnvFresh(st, x.atKeys) && x.atKeys.ephemeral.None? && x.atIdentity.ephemeral.None?
    && x.account.identity.Some? && S.Admissible(st, Message(x), x.atIdentity) && !x.atIdentity.svcRefuses && x.atIdentity.sendOk
    && S.Placeable(u, x.k, Message(x))
  }

  /** The session after the reply, and with its keys. */
  ghost predicate Replied(st: Server, x: Meeting)
  {
    && x.k in st.sessions && x.atHello.ephemeral.Some?
    && var s := st.sessions[x.k];
       && s.stage.HelloSent? && !s.encReady && s.nonceC == Some(x.nonceC) && s.nonceS == Some(x.atHello.nonceS)
       && s.dhPriv == x.atHello.ephemeral && s.dhSrv == Some(Pub(x.atHello.ephemeral.value)) && s.seqNo == 1 && s.replay == FRESH
       && !s.authenticated
  }

  ghost predicate Keyed(st: Server, x: Meeting)
  {
    && x.k in st.sessions && x.atHello.ephemeral.Some?
    && var s := st.sessions[x.k];
       && s.stage.KeysReady? && s.encReady && s.nonceC == Some(x.nonceC) && s.nonceS == Some(x.atHello.nonceS)
       && s.dhCli == Some(Pub(x.ephemeral)) && s.dhSrv == Some(Pub(x.atHello.ephemeral.value))
       && s.keyC2S == Some(KeyOf(x, Tx)) && s.keyS2C == Some(KeyOf(x, Rx)) && s.seqNo == 1 && s.replay == FRESH
       && !s.authenticated
  }

  /** What the later steps look at besides the session. */
  ghost predicate SameElse(st: Server, u: Server, k: PeerKey)
  {
    && u.cfg == st.cfg && u.pool == st.pool && u.lastVip == st.lastVip && u.tokens == st.tokens && u.clients == st.clients
    && u.sessions.Keys == st.sessions.Keys && forall l :: l in st.sessions && l != k ==> u.sessions[l] == st.sessions[l]
  }

  lemma Arrives(st: Server, k: PeerKey, f: Frame, env: Env)
    requires k in st.sessions
    ensures Step(st, Arrive(k, f, env)) == HandleFramed(st, k, f, env)
    ensures Possible(st, Arrive(k, f, env)) == EnvFresh(st, env)
  {
    hide HandleFramed;
  }

  lemma Admitted(st: Server, x: Meeting)
    requires Inv(st) && x.k !in st.sessions && VictimOk(st, x.k.ip, x.atAdmit.victim)
    requires x.k in Step(st, Admit(x.k, x.atAdmit)).sessions
    ensures var u := Step(st, Admit(x.k, x.atAdmit));
            && Inv(u) && u.sessions[x.k] == NewSession(x.atAdmit.now)
            && u.cfg == st.cfg && u.hsRl == st.hsRl && u.issued == st.issued && u.tokens == st.tokens && u.clients == st.clients && u.out == st.out
  {
    hide Inv, GetOrCreate, NewSession, VictimOk, Step;
    AdmitStep(st, Admit(x.k, x.atAdmit));
    StepKeeps(st, Admit(x.k, x.atAdmit));
    S.AdmittedIff(st, x.k, x.atAdmit);
    N.AdmitCounts(st, x.k, x.atAdmit.now, x.atAdmit.victim);
    L.AdmitBooks(st, x.k, x.atAdmit.now, x.atAdmit.victim);
    AdmitLog(st, x.k, x.atAdmit.now, x.atAdmit.victim);
  }

  lemma BeginsNew(now: int, nonceC: Nonce)
    ensures S.Begins(NewSession(now), nonceC) && NewSession(now).seqNo == 0 < SEQ_REKEY_LIMIT
  {
  }

  lemma Answered(st: Server, x: Meeting)
    requires Inv(st) && x.k in st.sessions && st.sessions[x.k] == NewSession(x.atAdmit.now) && st.cfg.signKey.Some?
    requires Allow(st.hsRl, x.k.ip, x.atHello.now).granted
    requires x.atHello.ephemeral.Some? && x.atHello.ephemeral.value !in st.issued && x.atHello.signOk && x.atHello.sendOk
    ensures var u := Step(st, Arrive(x.k, Greeting(x), x.atHello));
            && Inv(u) && Replied(u, x) && SameElse(st, u, x.k)
            && u.out == st.out + [Sent(x.k, Reply(x, st.cfg.signKey.value))]
            && u.issued == st.issued + {x.atHello.ephemeral.value}
  {
    hide Inv, Allow, HandleFramed, Step, NewSession, S.Begins, S.ReplyTo;
    Arrives(st, x.k, Greeting(x), x.atHello);
    StepKeeps(st, Arrive(x.k, Greeting(x), x.atHello));
    BeginsNew(x.atAdmit.now, x.nonceC);
    S.HelloIsAnswered(st, x.k, Greeting(x), x.atHello, x.nonceC);
    RestartedNew(x.atAdmit.now, x.nonceC, x.atHello.nonceS);
  }

  lemma RestartedNew(now: int, nonceC: Nonce, nonceS: Nonce)
    ensures var t := Restarted(NewSession(now), nonceC, nonceS);
            !t.encReady && t.replay == FRESH && !t.authenticated && NewSession(now).seqNo == 0
  {
  }

  lemma Agreed(st: Server, x: Meeting)
    requires Inv(st) && Replied(st, x) && x.atKeys.dhOk && x.atKeys.ephemeral.None?
    ensures var u := Step(st, Arrive(x.k, ClientKey(x), x.atKeys));
            && Inv(u) && Keyed(u, x) && SameElse(st, u, x.k) && u.out == st.out && u.issued == st.issued
  {
    hide Inv, HandleFramed, Step;
    Arrives(st, x.k, ClientKey(x), x.atKeys);
    StepKeeps(st, Arrive(x.k, ClientKey(x), x.atKeys));
    S.KeysIff(st, x.k, ClientKey(x), x.atKeys);
  }

  lemma SamePlaces(st: Server, u: Server, k: PeerKey, m: IdentityMsg)
    requires SameElse(st, u, k) && m.text.IdentityText?
    ensures S.Placeable(u, k, m) <==> S.Placeable(st, k, m)
  {
    forall ip
      ensures S.FreeFor(u, k, m.text.cliPub, ip) <==> S.FreeFor(st, k, m.text.cliPub, ip)
    {
    }
    hide S.FreeFor;
  }

  lemma SameAdmissible(st: Server, u: Server, m: IdentityMsg, env: Env)
    requires u.tokens == st.tokens && u.clients == st.clients && m.text.IdentityText?
    ensures S.Admissible(u, m, env) <==> S.Admissible(st, m, env)
  {
  }

  /** The message holds for the session, and says so to it. */
  lemma ClaimIs(st: Server, x: Meeting)
    requires Keyed(st, x) && x.account.identity.Some?
    ensures S.Claim(st, x.k, Identity(x)) == Some(Some(Message(x)))
    ensures IdentityHolds(st.sessions[x.k], Message(x))
  {
    assert FRESH.Accepts(2);
  }

  lemma Accepted(st: Server, x: Meeting) returns (ip: nat)
    requires Inv(st) && Keyed(st, x) && x.atIdentity.ephemeral.None? && x.account.identity.Some?
    requires S.Admissible(st, Message(x), x.atIdentity) && !x.atIdentity.svcRefuses && x.atIdentity.sendOk
    requires S.Placeable(st, x.k, Message(x))
    ensures var u := Step(st, Arrive(x.k, Identity(x), x.atIdentity));
            && x.k in u.sessions && u.sessions[x.k].stage.Authed? && u.sessions[x.k].vip == ip
            && u.sessions[x.k].clientId == x.account.clientId && u.sessions[x.k].cliPub == x.account.identity
            && Route(u, ip) == Some(x.k)
            && u.out == st.out + [Sent(x.k, Welcome(x, ip, st.cfg.prefix))]
  {
    hide Inv, HandleFramed, Step, S.Claim, IdentityHolds, S.Admissible, S.Placeable, Route;
    Arrives(st, x.k, Identity(x), x.atIdentity);
    ClaimIs(st, x);
    S.ClaimEnds(st, x.k, Identity(x), x.atIdentity);
    ip :| S.LoggedIn(st, x.k, HandleFramed(st, x.k, Identity(x), x.atIdentity), Message(x), ip, x.atIdentity);
    Welcomes(st, x, HandleFramed(st, x.k, Identity(x), x.atIdentity), ip);
  }

  lemma Welcomes(st: Server, x: Meeting, u: Server, ip: nat)
    requires Keyed(st, x) && x.account.identity.Some? && x.atIdentity.sendOk
    requires S.LoggedIn(st, x.k, u, Message(x), ip, x.atIdentity)
    ensures x.k in u.sessions && u.sessions[x.k].stage.Authed? && u.sessions[x.k].vip == ip
            && u.sessions[x.k].clientId == x.account.clientId && u.sessions[x.k].cliPub == x.account.identity
            && Route(u, ip) == Some(x.k) && u.out == st.out + [Sent(x.k, Welcome(x, ip, st.cfg.prefix))]
  {
    hide Route, S.FreeFor;
  }

  // ---- the client's side ---------------------------------------------------------------------

  /** The client after each of its steps. */
  ghost predicate Waits(c: C.Client, x: Meeting)
  {
    && c.tcp == x.k.tcp && c.account == x.account && c.nonceC == x.nonceC && C.Waiting(c) && !c.authenticated && c.replay == FRESH
  }

  ghost predicate Fitted(c: C.Client, x: Meeting)
  {
    && Waits(c, x) && x.atHello.ephemeral.Some? && c.encReady && c.keyC2S == Some(KeyOf(x, Tx)) && c.keyS2C == Some(KeyOf(x, Rx))
    && c.nonceS == Some(x.atHello.nonceS) && c.dhSrv == Some(Pub(x.atHello.ephemeral.value)) && c.dhCli == Some(Pub(x.ephemeral))
  }

  lemma Greeted(c: C.Client, x: Meeting)
    ensures var a := C.Greet(C.Start(c, x.account, x.k.tcp, x.nonceC), C.Handed);
            && a.sent == [Greeting(x)] && Waits(a.c, x) && a.c.phase.Greeting? && !a.c.helloOk && a.c.seqNo == 1
  {
    P.Greets(C.Start(c, x.account, x.k.tcp, x.nonceC));
    hide C.Greet;
  }

  lemma HelloTaken(c: C.Client, x: Meeting, signKey: SigKey)
    requires Waits(c, x) && c.phase.Greeting? && c.seqNo == 1 && x.account.serverKey == Some(signKey) && x.atHello.ephemeral.Some?
    ensures var a := C.HandleFrame(c, Reply(x, signKey), C.Handed);
            && a.sent == [] && Waits(a.c, x) && a.c.phase.Greeting? && a.c.helloOk && a.c.seqNo == 1
            && a.c.nonceS == Some(x.atHello.nonceS) && a.c.dhSrv == Some(Pub(x.atHello.ephemeral.value))
  {
    P.HelloIff(c, Reply(x, signKey), C.Handed);
    hide C.HandleFrame;
  }

  lemma Derived(c: C.Client, x: Meeting)
    requires Waits(c, x) && c.phase.Greeting? && c.helloOk && c.seqNo == 1 && x.atHello.ephemeral.Some?
    requires c.nonceS == Some(x.atHello.nonceS) && c.dhSrv == Some(Pub(x.atHello.ephemeral.value))
    ensures var a := C.Derive(c, Some(x.ephemeral), true, C.Handed);
            && a.sent == [ClientKey(x)] && Fitted(a.c, x) && a.c.phase.Deriving? && a.c.seqNo == 2
  {
    P.Derives(c, x.ephemeral);
    hide C.Derive;
  }

  lemma Named(c: C.Client, x: Meeting)
    requires Fitted(c, x) && c.phase.Deriving? && c.seqNo == 2 && P.Nameable(c)
    ensures x.account.identity.Some?
    ensures var a := C.Identify(c, true, C.Handed);
            && a.sent == [Identity(x)] && Fitted(a.c, x) && a.c.phase.Identifying?
  {
    P.Identifies(c);
    hide C.Identify;
  }

  lemma LetIn(c: C.Client, x: Meeting, ip: nat, prefix: nat)
    requires Fitted(c, x) && c.phase.Identifying?
    ensures var a := C.HandleFrame(c, Welcome(x, ip, prefix), C.Handed);
            && a.sent == [] && a.c.authenticated && a.c.assignedIp == ip && a.c.assignedPrefix == prefix
            && a.c.phase.Identifying? && a.c.keyC2S == c.keyC2S && a.c.keyS2C == c.keyS2C
  {
    var f := Welcome(x, ip, prefix);
    assert FRESH.Accepts(1);
    assert P.Says(c, f) == Some(InIdentityOk(ip, prefix));
    P.SealedIs(c, f, C.Handed);
    hide C.HandleFrame, P.Says;
  }

  // ---- going on from a world ---------------------------------------------------------------

  function After(w: World, hs: seq<Happening>): World
  {
    if hs == [] then w else Next(After(w, hs[..|hs| - 1]), hs[|hs| - 1])
  }

  ghost predicate MayAll(w: World, hs: seq<Happening>)
  {
    hs != [] ==> MayAll(w, hs[..|hs| - 1]) && May(After(w, hs[..|hs| - 1]), hs[|hs| - 1])
  }

  lemma OneMore(w: World, hs: seq<Happening>, h: Happening)
    ensures After(w, hs + [h]) == Next(After(w, hs), h)
    ensures MayAll(w, hs + [h]) <==> MayAll(w, hs) && May(After(w, hs), h)
  {
    assert (hs + [h])[..|hs|] == hs;
    hide Next, May;
  }

  /** An execution goes on with whatever may happen in its last world. */
  lemma {:induction false} GoesOn(ws: seq<World>, hs: seq<Happening>, more: seq<Happening>) returns (vs: seq<World>)
    requires Execution(ws, hs) && MayAll(ws[|hs|], more)
    ensures Execution(vs, hs + more) && vs[|hs + more|] == After(ws[|hs|], more) && vs[..|ws|] == ws
  {
    hide May, Next, Began;
    if more == [] {
      vs := ws;
      assert hs + [] == hs;
    } else {
      var front, h := more[..|more| - 1], more[|more| - 1];
      var us := GoesOn(ws, hs, front);
      var u := Next(us[|hs + front|], h);
      vs := us + [u];
      assert hs + more == (hs + front) + [h];
      OneStep(us, hs + front, h, u);
    }
  }

  lemma OneStep(us: seq<World>, hs: seq<Happening>, h: Happening, u: World)
    requires Execution(us, hs) && May(us[|hs|], h) && u == Next(us[|hs|], h)
    ensures Execution(us + [u], hs + [h])
  {
    hide May, Next, Began;
    var vs, gs := us + [u], hs + [h];
    forall i | 0 <= i < |gs|
      ensures May(vs[i], gs[i]) && vs[i + 1] == Next(vs[i], gs[i])
    {
      if i < |hs| {
        assert May(us[i], hs[i]) && us[i + 1] == Next(us[i], hs[i]);
      }
    }
  }

  lemma ClientActs(w: World, h: Happening)
    requires !h.AtServer? && !h.Start? && !h.Inject? && h.i in w.clients
    ensures var u, a := Next(w, h), ClientAct(w.clients[h.i], h);
            && u.server == w.server && h.i in u.clients && u.clients[h.i] == a.c && u.foreign == w.foreign && w.net <= u.net
            && u.made == (if h.Derive? && h.ephemeral.Some? then w.made + {h.ephemeral.value} else w.made)
            && (|a.sent| == 1 ==> a.sent[0] in u.net)
  {
    hide ClientAct;
  }

  lemma ServerActs(w: World, e: Event)
    ensures var u := Next(w, AtServer(e));
            && u.server == Step(w.server, e) && u.clients == w.clients && u.foreign == w.foreign && u.made == w.made && w.net <= u.net
            && (|u.server.out| > 0 ==> u.server.out[|u.server.out| - 1].frame in u.net)
  {
    hide Step;
  }

  /** What the meeting needs of a world. */
  ghost predicate Meets(w: World, x: Meeting)
  {
    && Welcoming(w.server, x) && x.account.serverKey == w.server.cfg.signKey
    && |x.account.clientId| <= 255 && |x.account.token| <= 255
    && x.ephemeral !in w.made + w.foreign + w.server.issued
    && x.atHello.ephemeral.Some? && x.atHello.ephemeral.value !in w.made + w.foreign && x.atHello.ephemeral != Some(x.ephemeral)
  }

  /** The happenings of an undisturbed handshake. */
  function Script(x: Meeting, signKey: SigKey, ip: nat, prefix: nat): seq<Happening>
    requires x.atHello.ephemeral.Some? && x.account.identity.Some?
  {
    [Happening.Start(x.i, x.account, x.k.tcp, x.nonceC), Happening.Greet(x.i, C.Handed)]
    + [AtServer(Admit(x.k, x.atAdmit)), AtServer(Arrive(x.k, Greeting(x), x.atHello))]
    + [Happening.Hear(x.i, Reply(x, signKey), C.Handed), Happening.Derive(x.i, Some(x.ephemeral), true, C.Handed)]
    + [AtServer(Arrive(x.k, ClientKey(x), x.atKeys)), Happening.Identify(x.i, true, C.Handed)]
    + [AtServer(Arrive(x.k, Identity(x), x.atIdentity))]
    + [Happening.Hear(x.i, Welcome(x, ip, prefix), C.Handed), Happening.Conclude(x.i)]
  }

  lemma TwoMore(w: World, hs: seq<Happening>, g: Happening, h: Happening)
    requires MayAll(w, hs)
    ensures After(w, hs + [g, h]) == Next(Next(After(w, hs), g), h)
    ensures May(After(w, hs), g) && May(Next(After(w, hs), g), h) ==> MayAll(w, hs + [g, h])
  {
    hide Next, May, MayAll, After;
    OneMore(w, hs, g);
    OneMore(w, hs + [g], h);
    assert hs + [g] + [h] == hs + [g, h];
  }

  lemma StartsAndGreets(w: World, x: Meeting)
    ensures var g := Happening.Start(x.i, x.account, x.k.tcp, x.nonceC);
            var h := Happening.Greet(x.i, C.Handed);
            && May(w, g) && May(Next(w, g), h)
            && var u := Next(Next(w, g), h);
               && u.server == w.server && u.made == w.made && u.foreign == w.foreign && Greeting(x) in u.net
               && x.i in u.clients && var c := u.clients[x.i];
                  Waits(c, x) && c.phase.Greeting? && !c.helloOk && c.seqNo == 1
  {
    var g := Happening.Start(x.i, x.account, x.k.tcp, x.nonceC);
    var h := Happening.Greet(x.i, C.Handed);
    var previous := if x.i in w.clients then w.clients[x.i] else NoClient();
    assert Next(w, g).clients[x.i] == C.Start(previous, x.account, x.k.tcp, x.nonceC);
    hide C.Start, Waits;
    ClientActs(Next(w, g), h);
    Greeted(previous, x);
  }

  /** The state once the source is admitted. */
  ghost predicate Expecting(st: Server, x: Meeting)
  {
    && x.k in st.sessions && st.sessions[x.k] == NewSession(x.atAdmit.now) && st.cfg.signKey.Some?
    && Allow(st.hsRl, x.k.ip, x.atHello.now).granted
    && x.atHello.ephemeral.Some? && x.atHello.ephemeral.value !in st.issued && x.atHello.signOk && x.atHello.sendOk
    && x.account.identity.Some? && S.Admissible(st, Message(x), x.atIdentity) && S.Placeable(st, x.k, Message(x))
  }

  lemma Expects(st: Server, x: Meeting)
    requires Inv(st) && Welcoming(st, x)
    ensures var u := Step(st, Admit(x.k, x.atAdmit));
            && Inv(u) && Expecting(u, x) && u.cfg == st.cfg && u.issued == st.issued
  {
    hide Inv, Step, Allow, S.Admissible, S.Placeable, VictimOk, NewSession;
    Admitted(st, x);
    SameAdmissible(st, Step(st, Admit(x.k, x.atAdmit)), Message(x), x.atIdentity);
  }

  lemma Admits(w: World, x: Meeting)
    requires Inv(w.server) && Welcoming(w.server, x)
    ensures var g := AtServer(Admit(x.k, x.atAdmit));
            && May(w, g)
            && var u := Next(w, g);
               && u.clients == w.clients && u.made == w.made && u.foreign == w.foreign && w.net <= u.net
               && Inv(u.server) && Expecting(u.server, x) && u.server.cfg == w.server.cfg && u.server.issued == w.server.issued
  {
    ServerActs(w, Admit(x.k, x.atAdmit));
    AdmitStep(w.server, Admit(x.k, x.atAdmit));
    hide Inv, Step, Next, Expecting;
    Expects(w.server, x);
    hide Welcoming;
  }

  lemma Answers(w: World, x: Meeting)
    requires Inv(w.server) && Expecting(w.server, x) && Greeting(x) in w.net
    requires x.atHello.ephemeral.Some? && x.atHello.ephemeral.value !in w.made + w.foreign
    ensures var h := AtServer(Arrive(x.k, Greeting(x), x.atHello));
            && May(w, h)
            && var u := Next(w, h);
               && u.clients == w.clients && u.made == w.made && u.foreign == w.foreign
               && Reply(x, w.server.cfg.signKey.value) in u.net && Inv(u.server) && Replied(u.server, x)
               && u.server.cfg == w.server.cfg && u.server.issued == w.server.issued + {x.atHello.ephemeral.value}
               && S.Admissible(u.server, Message(x), x.atIdentity) && S.Placeable(u.server, x.k, Message(x))
  {
    var h := AtServer(Arrive(x.k, Greeting(x), x.atHello));
    ServerActs(w, Arrive(x.k, Greeting(x), x.atHello));
    Arrives(w.server, x.k, Greeting(x), x.atHello);
    hide Inv, Step, Next, Allow, S.Admissible, S.Placeable, Possible, SameElse, NewSession, Replied, Reply;
    Answered(w.server, x);
    var u := Next(w, h);
    assert u.server.out[|u.server.out| - 1] == Sent(x.k, Reply(x, w.server.cfg.signKey.value));
    SamePlaces(w.server, u.server, x.k, Message(x));
    ElseBooks(w.server, u.server, x.k);
    SameAdmissible(w.server, u.server, Message(x), x.atIdentity);
  }

  lemma ElseBooks(st: Server, u: Server, k: PeerKey)
    requires SameElse(st, u, k)
    ensures u.cfg == st.cfg && u.tokens == st.tokens && u.clients == st.clients
  {
  }

  /** The ephemeral key the client is about to make is new. */
  ghost predicate NewKey(w: World, x: Meeting)
  {
    x.ephemeral !in w.made + w.foreign + w.server.issued
  }

  lemma HearsAndDerives(w: World, x: Meeting, signKey: SigKey)
    requires x.i in w.clients && Waits(w.clients[x.i], x) && w.clients[x.i].phase.Greeting? && w.clients[x.i].seqNo == 1
    requires x.account.serverKey == Some(signKey) && x.atHello.ephemeral.Some? && Reply(x, signKey) in w.net && NewKey(w, x)
    ensures var g := Happening.Hear(x.i, Reply(x, signKey), C.Handed);
            var h := Happening.Derive(x.i, Some(x.ephemeral), true, C.Handed);
            && May(w, g) && May(Next(w, g), h)
            && var u := Next(Next(w, g), h);
               && u.server == w.server && ClientKey(x) in u.net && x.i in u.clients
               && var c := u.clients[x.i]; Fitted(c, x) && c.phase.Deriving? && c.seqNo == 2
  {
    var g := Happening.Hear(x.i, Reply(x, signKey), C.Handed);
    var h := Happening.Derive(x.i, Some(x.ephemeral), true, C.Handed);
    ClientActs(w, g);
    ClientActs(Next(w, g), h);
    HelloTaken(w.clients[x.i], x, signKey);
    Derived(Next(w, g).clients[x.i], x);
    hide Next, Waits, Fitted, C.HandleFrame, C.Derive, Reply;
  }

  lemma Agrees(w: World, x: Meeting)
    requires Inv(w.server) && Replied(w.server, x) && x.atKeys.dhOk && x.atKeys.ephemeral.None? && ClientKey(x) in w.net
    requires x.account.identity.Some? && S.Admissible(w.server, Message(x), x.atIdentity) && S.Placeable(w.server, x.k, Message(x))
    ensures var g := AtServer(Arrive(x.k, ClientKey(x), x.atKeys));
            && May(w, g)
            && var u := Next(w, g);
               && u.clients == w.clients && Inv(u.server) && Keyed(u.server, x) && u.server.cfg == w.server.cfg
               && S.Admissible(u.server, Message(x), x.atIdentity) && S.Placeable(u.server, x.k, Message(x))
  {
    var g := AtServer(Arrive(x.k, ClientKey(x), x.atKeys));
    ServerActs(w, Arrive(x.k, ClientKey(x), x.atKeys));
    Arrives(w.server, x.k, ClientKey(x), x.atKeys);
    assert x.k in w.server.sessions;
    hide Inv, Step, Next, S.Admissible, S.Placeable, SameElse, Keyed, Replied;
    Agreed(w.server, x);
    SamePlaces(w.server, Next(w, g).server, x.k, Message(x));
    ElseBooks(w.server, Next(w, g).server, x.k);
    SameAdmissible(w.server, Next(w, g).server, Message(x), x.atIdentity);
  }

  lemma SendsIdentity(w: World, x: Meeting)
    requires x.i in w.clients && Fitted(w.clients[x.i], x) && w.clients[x.i].phase.Deriving? && w.clients[x.i].seqNo == 2
    requires P.Nameable(w.clients[x.i]) && x.account.identity.Some?
    ensures var h := Happening.Identify(x.i, true, C.Handed);
            && May(w, h)
            && var u := Next(w, h);
               && Identity(x) in u.net && u.server == w.server
               && x.i in u.clients && Fitted(u.clients[x.i], x) && u.clients[x.i].phase.Identifying?
  {
    ClientActs(w, Happening.Identify(x.i, true, C.Handed));
    assert x.atHello.ephemeral.Some?;
    hide Next, Fitted, C.Identify, P.Nameable, Identity;
    Named(w.clients[x.i], x);
  }

  lemma LogsIn(w: World, x: Meeting) returns (ip: nat)
    requires Inv(w.server) && Keyed(w.server, x) && x.atIdentity.ephemeral.None? && x.account.identity.Some? && Identity(x) in w.net
    requires S.Admissible(w.server, Message(x), x.atIdentity) && !x.atIdentity.svcRefuses && x.atIdentity.sendOk
    requires S.Placeable(w.server, x.k, Message(x))
    ensures var g := AtServer(Arrive(x.k, Identity(x), x.atIdentity));
            && May(w, g)
            && var u := Next(w, g);
               && u.clients == w.clients && Welcome(x, ip, w.server.cfg.prefix) in u.net && Settled(u.server, x, ip)
  {
    var g := AtServer(Arrive(x.k, Identity(x), x.atIdentity));
    ServerActs(w, Arrive(x.k, Identity(x), x.atIdentity));
    Arrives(w.server, x.k, Identity(x), x.atIdentity);
    hide Inv, Step, Next, S.Admissible, S.Placeable, Possible, Keyed, Route;
    ip := Accepted(w.server, x);
    assert Next(w, g).server.out[|Next(w, g).server.out| - 1] == Sent(x.k, Welcome(x, ip, w.server.cfg.prefix));
  }

  /** The session is logged in at this address, as this client. */
  ghost predicate Settled(st: Server, x: Meeting, ip: nat)
  {
    && x.k in st.sessions && st.sessions[x.k].stage.Authed? && st.sessions[x.k].vip == ip
    && st.sessions[x.k].clientId == x.account.clientId && st.sessions[x.k].cliPub == x.account.identity
    && Route(st, ip) == Some(x.k)
  }

  /** The client is online at this address, under the keys of the handshake. */
  ghost predicate Online(c: C.Client, x: Meeting, ip: nat, prefix: nat)
  {
    && c.phase.Online? && c.authenticated && c.handshaked && c.assignedIp == ip && c.assignedPrefix == prefix
    && x.atHello.ephemeral.Some? && c.keyC2S == Some(KeyOf(x, Tx)) && c.keyS2C == Some(KeyOf(x, Rx))
  }

  lemma HearsAndConcludes(w: World, x: Meeting, ip: nat, prefix: nat)
    requires x.i in w.clients && Fitted(w.clients[x.i], x) && w.clients[x.i].phase.Identifying? && Welcome(x, ip, prefix) in w.net
    ensures var g, h := Happening.Hear(x.i, Welcome(x, ip, prefix), C.Handed), Happening.Conclude(x.i);
            && May(w, g) && May(Next(w, g), h)
            && var u := Next(Next(w, g), h);
               u.server == w.server && x.i in u.clients && Online(u.clients[x.i], x, ip, prefix)
  {
    var g, h := Happening.Hear(x.i, Welcome(x, ip, prefix), C.Handed), Happening.Conclude(x.i);
    ClientActs(w, g);
    ClientActs(Next(w, g), h);
    LetIn(w.clients[x.i], x, ip, prefix);
    P.OnlineIff(Next(w, g).clients[x.i]);
    assert w.clients[x.i].keyC2S == Some(KeyOf(x, Tx)) && w.clients[x.i].keyS2C == Some(KeyOf(x, Rx)) && x.atHello.ephemeral.Some?;
    hide Next, Fitted, C.HandleFrame, C.Conclude, Welcome, KeyOf;
  }

  /** The undisturbed handshake, from any reachable world that allows the meeting: its
      eleven happenings can follow one another, and in the end the client is online and
      the server's session logged in, at one address. */
  lemma Completes(w: World, x: Meeting) returns (ip: nat)
    requires Inv(w.server) && Meets(w, x)
    ensures w.server.cfg.signKey.Some? && x.atHello.ephemeral.Some? && x.account.identity.Some?
    ensures var script := Script(x, w.server.cfg.signKey.value, ip, w.server.cfg.prefix);
            && MayAll(w, script)
            && var u := After(w, script);
               x.i in u.clients && Online(u.clients[x.i], x, ip, w.server.cfg.prefix) && Settled(u.server, x, ip)
  {
    MeetsParts(w, x);
    hide Inv, Welcoming, Expecting, Waits, Fitted, Replied, Keyed, Online, Settled, Next, May, MayAll, After, Reply, S.Admissible, S.Placeable;
    var signKey, prefix := w.server.cfg.signKey.value, w.server.cfg.prefix;
    var g0, h0 := Happening.Start(x.i, x.account, x.k.tcp, x.nonceC), Happening.Greet(x.i, C.Handed);
    var g1, h1 := AtServer(Admit(x.k, x.atAdmit)), AtServer(Arrive(x.k, Greeting(x), x.atHello));
    var g2, h2 := Happening.Hear(x.i, Reply(x, signKey), C.Handed), Happening.Derive(x.i, Some(x.ephemeral), true, C.Handed);
    var g3, h3 := AtServer(Arrive(x.k, ClientKey(x), x.atKeys)), Happening.Identify(x.i, true, C.Handed);
    var g4 := AtServer(Arrive(x.k, Identity(x), x.atIdentity));
    StartsAndGreets(w, x);
    var w1 := Next(Next(w, g0), h0);
    Admits(w1, x);
    Answers(Next(w1, g1), x);
    var w2 := Next(Next(w1, g1), h1);
    HearsAndDerives(w2, x, signKey);
    var w3 := Next(Next(w2, g2), h2);
    Agrees(w3, x);
    FittedIsNameable(Next(w3, g3).clients[x.i], x);
    SendsIdentity(Next(w3, g3), x);
    var w4 := Next(Next(w3, g3), h3);
    ip := LogsIn(w4, x);
    HearsAndConcludes(Next(w4, g4), x, ip, prefix);
    var g5, h5 := Happening.Hear(x.i, Welcome(x, ip, prefix), C.Handed), Happening.Conclude(x.i);
    Chained(w, g0, h0, g1, h1, g2, h2, g3, h3, g4, g5, h5);
  }

  lemma MeetsParts(w: World, x: Meeting)
    requires Meets(w, x)
    ensures w.server.cfg.signKey.Some? && x.account.serverKey == w.server.cfg.signKey && x.account.identity.Some?
    ensures x.atHello.ephemeral.Some? && x.atKeys.dhOk && x.atKeys.ephemeral.None? && x.atIdentity.ephemeral.None?
    ensures !x.atIdentity.svcRefuses && x.atIdentity.sendOk
  {
    hide VictimOk, Allow, S.Admissible, S.Placeable, Step;
  }

  lemma FittedIsNameable(c: C.Client, x: Meeting)
    requires Fitted(c, x) && x.account.identity.Some? && |x.account.clientId| <= 255 && |x.account.token| <= 255
    ensures P.Nameable(c)
  {
  }

  /** Steps that may each follow the one before may follow in a row. */
  lemma Chained(w: World, g0: Happening, h0: Happening, g1: Happening, h1: Happening, g2: Happening, h2: Happening,
                g3: Happening, h3: Happening, g4: Happening, g5: Happening, h5: Happening)
    requires May(w, g0) && May(Next(w, g0), h0)
    requires var w1 := Next(Next(w, g0), h0);
             && May(w1, g1) && May(Next(w1, g1), h1)
             && var w2 := Next(Next(w1, g1), h1);
                && May(w2, g2) && May(Next(w2, g2), h2)
                && var w3 := Next(Next(w2, g2), h2);
                   && May(w3, g3) && May(Next(w3, g3), h3)
                   && var w4 := Next(Next(w3, g3), h3);
                      && May(w4, g4)
                      && May(Next(w4, g4), g5) && May(Next(Next(w4, g4), g5), h5)
    ensures var hs := [g0, h0] + [g1, h1] + [g2, h2] + [g3, h3] + [g4] + [g5, h5];
            && MayAll(w, hs)
            && After(w, hs) == Next(Next(Next(Next(Next(Next(Next(Next(Next(Next(Next(w, g0), h0), g1), h1), g2), h2), g3), h3), g4), g5), h5)
  {
    assert MayAll(w, []) && After(w, []) == w;
    hide May, Next, MayAll, After;
    TwoMore(w, [], g0, h0);
    assert [] + [g0, h0] == [g0, h0];
    TwoMore(w, [g0, h0], g1, h1);
    TwoMore(w, [g0, h0] + [g1, h1], g2, h2);
    TwoMore(w, [g0, h0] + [g1, h1] + [g2, h2], g3, h3);
    OneMore(w, [g0, h0] + [g1, h1] + [g2, h2] + [g3, h3], g4);
    TwoMore(w, [g0, h0] + [g1, h1] + [g2, h2] + [g3, h3] + [g4], g5, h5);
  }

  /** So every execution that reaches such a world has one that goes on to a client online
      and a session logged in, and of that one agreement speaks. */
  lemma HandshakeCompletes(ws: seq<World>, hs: seq<Happening>, x: Meeting) returns (vs: seq<World>, ip: nat)
    requires Execution(ws, hs) && Meets(ws[|hs|], x)
    ensures ws[|hs|].server.cfg.signKey.Some? && x.atHello.ephemeral.Some? && x.account.identity.Some?
    ensures var script := Script(x, ws[|hs|].server.cfg.signKey.value, ip, ws[|hs|].server.cfg.prefix);
            && Execution(vs, hs + script) && vs[..|ws|] == ws && |script| == 11
            && var u := vs[|hs + script|];
               x.i in u.clients && Online(u.clients[x.i], x, ip, ws[|hs|].server.cfg.prefix) && Settled(u.server, x, ip)
  {
    var w := ws[|hs|];
    A.ExecutionKeeps(ws, hs, |hs|);
    assert Inv(w.server);
    hide Execution, A.WorldInv, Inv, Meets, MayAll, After, Online, Settled, Script;
    ip := Completes(w, x);
    var script := Script(x, w.server.cfg.signKey.value, ip, w.server.cfg.prefix);
    vs := GoesOn(ws, hs, script);
    assert |script| == 11 by { ScriptLength(x, w.server.cfg.signKey.value, ip, w.server.cfg.prefix); }
  }

  lemma ScriptLength(x: Meeting, signKey: SigKey, ip: nat, prefix: nat)
    requires x.atHello.ephemeral.Some? && x.account.identity.Some?
    ensures |Script(x, signKey, ip, prefix)| == 11
  {
  }

  // ---- a fresh server ----------------------------------------------------------------------

  /** What a step draws when all goes well. */
  function Smooth(now: int, nonceS: Nonce, ephemeral: Option<Priv>): Env
  {
    Env(now, nonceS, ephemeral, true, true, true, true, false, false, false, [], true, None)
  }

  /** A client with a registered identity meets a server that has just started, with a
      host address to give. */
  lemma FreshServerMeets(w: World, x: Meeting, ip: nat, e: Priv, now: int, nonceS: Nonce)
    requires Began(w) && now > 0 && w.server.cfg.signKey.Some? && x.account.serverKey == w.server.cfg.signKey
    requires x.account.identity.Some? && x.account.identity.value in w.server.clients && x.account.token == ""
    requires |x.account.clientId| <= 255 && !w.server.pool.Empty() && w.server.pool.Host(ip)
    requires x.ephemeral !in w.foreign && e !in w.foreign && e != x.ephemeral
    requires x.atAdmit == Smooth(now, 0, None) && x.atHello == Smooth(now, nonceS, Some(e))
    requires x.atKeys == Smooth(now, 0, None) && x.atIdentity == Smooth(now, 0, None)
    ensures Meets(w, x)
  {
    var st := w.server;
    EmptyTable(st, x.k, x.atAdmit);
    assert S.Placeable(Step(st, Admit(x.k, x.atAdmit)), x.k, Message(x)) by {
      FirstPlace(st, Step(st, Admit(x.k, x.atAdmit)), x.k, Message(x), ip);
    }
    FullBucket(x.k.ip, now);
    hide Step, Allow, S.Placeable;
  }

  lemma EmptyTable(st: Server, k: PeerKey, env: Env)
    requires Started(st) && env.victim.None?
    ensures VictimOk(st, k.ip, None) && k !in st.sessions
    ensures var u := Step(st, Admit(k, env));
            k in u.sessions && u.pool == st.pool && u.lastVip == st.lastVip
  {
    assert Pending(st) == {} && FromIp(st, k.ip) == {};
    hide NewSession;
  }

  lemma FirstPlace(st: Server, u: Server, k: PeerKey, m: IdentityMsg, ip: nat)
    requires u.pool == st.pool && st.pool.used == {} && !st.pool.Empty() && st.pool.Host(ip) && m.text.IdentityText?
    ensures S.Placeable(u, k, m)
  {
    assert S.FreeFor(u, k, m.text.cliPub, ip);
  }

  lemma FullBucket(ip: nat, now: int)
    ensures Allow(map[], ip, now).granted
  {
    assert Pruned(map[], now) == map[];
  }

  // ---- packets -------------------------------------------------------------------------------

  /** A client and a session that hold the same keys, both past the handshake. */
  ghost predicate Joined(st: Server, k: PeerKey, c: C.Client)
  {
    && k in st.sessions && c.tcp == k.tcp && c.phase.Online? && !c.needReconnect && c.encReady && c.keyC2S.Some? && c.keyS2C.Some?
    && var s := st.sessions[k]; s.authenticated && s.encReady && s.keyC2S == c.keyC2S && s.keyS2C == c.keyS2C
  }

  /** A packet from the client's own address enters the server's tunnel device. */
  lemma PacketGoesUp(st: Server, k: PeerKey, c: C.Client, env: Env)
    requires Inv(st) && Joined(st, k, c) && c.seqNo < SEQ_REKEY_LIMIT && st.sessions[k].replay.Accepts(c.seqNo)
    requires !env.svcCuts && !env.svcDrops
    ensures var a := C.Transmit(c, InData(Some(st.sessions[k].vip)), C.Handed);
            && |a.sent| == 1
            && HandleFramed(st, k, a.sent[0], env).uplinks == st.uplinks + [Uplink(k, st.sessions[k].vip)]
  {
    var inner := InData(Some(st.sessions[k].vip));
    P.Transmits(c, inner);
    S.UplinkIff(st, k, P.SealedBy(c, MData, inner), env);
    hide Inv, HandleFramed, C.Transmit;
  }

  /** A packet for its address reaches the client's. */
  lemma PacketComesDown(st: Server, k: PeerKey, c: C.Client, src: nat)
    requires Inv(st) && Joined(st, k, c) && st.sessions[k].seqNo < SEQ_REKEY_LIMIT && c.replay.Accepts(st.sessions[k].seqNo)
    ensures var u := Step(st, Downlink(st.sessions[k].vip, src, true));
            && |u.out| == |st.out| + 1 && u.out[|st.out|].to == k
            && C.HandleFrame(c, u.out[|st.out|].frame, C.Handed).c.received == c.received + [Some(src)]
  {
    var inner := InData(Some(src));
    S.DownlinkIff(st, st.sessions[k].vip, src);
    assert st.sessions[k].keyS2C.Some?;
    P.ReceivedIff(c, S.SealedFor(st.sessions[k], k, MData, inner), C.Handed);
    hide Inv, Step, C.HandleFrame;
  }

  /** A client's heartbeat comes back as an answer. */
  lemma HeartbeatComesBack(st: Server, k: PeerKey, c: C.Client, env: Env)
    requires Inv(st) && Joined(st, k, c) && c.seqNo < SEQ_REKEY_LIMIT && st.sessions[k].replay.Accepts(c.seqNo)
    requires st.sessions[k].seqNo < SEQ_REKEY_LIMIT && env.sendOk
    ensures var a := C.Transmit(c, InHeart, C.Handed);
            && |a.sent| == 1 && st.sessions[k].keyS2C.Some?
            && S.Told(st, HandleFramed(st, k, a.sent[0], env), k, S.SealedFor(st.sessions[k], k, MHeartResponse, InHeartResponse))
  {
    P.Transmits(c, InHeart);
    assert S.Says(st, k, P.SealedBy(c, MHeart, InHeart)) == Some(InHeart);
    S.HeartbeatIsAnswered(st, k, P.SealedBy(c, MHeart, InHeart), env);
    hide Inv, HandleFramed, C.Transmit;
  }

  /** A client that leaves is gone from the table, or asked off its connection. */
  lemma LeavingEnds(st: Server, k: PeerKey, c: C.Client, env: Env)
    requires Joined(st, k, c) && c.handshaked && c.seqNo < SEQ_REKEY_LIMIT && st.sessions[k].replay.Accepts(c.seqNo)
    ensures var a := C.Leave(c, C.Handed);
            && |a.sent| == 1
            && var u := HandleFramed(st, k, a.sent[0], env);
               if k.tcp then k in u.sessions && u.sessions[k].tcpDrop else k !in u.sessions
  {
    P.SaysGoodbye(c);
    assert S.Says(st, k, P.SealedBy(c, MDisconnect, InDisconnect)) == Some(InDisconnect);
    S.GoodbyeEnds(st, k, P.SealedBy(c, MDisconnect, InDisconnect), env);
    hide HandleFramed, C.Leave;
  }
}
