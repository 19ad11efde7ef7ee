/** Two-party agreement: an authenticated client and the server's session hold the
    same nonces, public values, keys, identity and address, on every execution. */
module Agreement {
  import opened Text
  import opened Replay
  import opened Protocol
  import opened ServerSpec
  import opened ServerInv
  import opened ServerSteps
  import opened ServerMoves
  import opened ServerRuns
  import opened ServerHandshake
  import opened Worlds
  import C = ClientSpec

  function KeyOf(dir: Direction, p: Pub, d: Derivation): SessionKey
  {
    SessionKey(dir, Shared({p, d.dhSrv}), d.nonceC, d.nonceS)
  }

  // ---- what every reachable world keeps ------------------------------------------------

  /** An identity message speaks for the account that derived the key. */
  ghost predicate SpeaksFor(m: Option<IdentityMsg>, account: C.Account)
  {
    m.Some? ==> m.value.text.IdentityText? && Some(m.value.text.cliPub) == account.identity && m.value.text.clientId == account.clientId
  }

  /** A frame sealed towards the server was sealed by a client that derived its key. */
  ghost predicate TxSound(derived: map<Pub, Derivation>, key: SessionKey, inner: Inner)
  {
    exists p :: p in derived && key == KeyOf(Tx, p, derived[p]) && (inner.InIdentity? ==> SpeaksFor(inner.msg, derived[p].account))
  }

  /** A signed identity is an outsider's own, or names a client's ephemeral key. */
  ghost predicate SigKnown(w: World, sig: Signature)
  {
    sig.Signature? && sig.text.IdentityText? ==> sig.signer in w.foreignIds || sig.text.dhCli.priv in w.made
  }

  ghost predicate MsgKnown(w: World, m: Option<IdentityMsg>)
  {
    m.Some? ==> SigKnown(w, m.value.sig)
  }

  ghost predicate ClaimOk(w: World, f: Frame)
  {
    f.payload.Sealed? && f.payload.inner.InIdentity? ==> MsgKnown(w, f.payload.inner.msg)
  }

  /** What a frame on the network vouches for; one sealed under an outsider's key for
      its signature alone. */
  ghost predicate FrameOk(w: World, f: Frame)
  {
    ClaimOk(w, f) && (!(f.payload.Sealed? && Foreign(w, f.payload.key)) ==> Vouched(w, f))
  }

  ghost predicate Vouched(w: World, f: Frame)
  {
    if f.payload.Sealed? && f.payload.key.dir.Tx? then TxSound(w.derived, f.payload.key, f.payload.inner)
    else FrameSound(w.server, f)
  }

  ghost predicate NetOk(w: World)
  {
    forall f :: f in w.net ==> FrameOk(w, f)
  }

  ghost predicate MadeOk(w: World)
  {
    && (forall p :: p in w.derived ==> p.priv in w.made)
    && w.made !! w.server.issued && w.foreign !! w.made && w.foreign !! w.server.issued
  }

  /** The keys a client holds are the ones on record for its ephemeral key. */
  ghost predicate KeyedBy(w: World, c: C.Client)
  {
    && c.dhCli.Some? && c.dhCli.value in w.derived && c.dhCli.value.priv in w.made
    && var d := w.derived[c.dhCli.value];
    && c.keyC2S == Some(KeyOf(Tx, c.dhCli.value, d)) && c.keyS2C == Some(KeyOf(Rx, c.dhCli.value, d))
    && d.nonceC == c.nonceC && d.account == c.account
    && (c.account.serverKey == w.server.cfg.signKey ==> d.dhSrv.priv in w.server.issued)
  }

  ghost predicate HelloHeard(w: World, c: C.Client)
  {
    && (c.helloOk ==> c.nonceS.Some? && c.dhSrv.Some? && c.account.serverKey.Some?)
    && (c.helloOk && !c.authFailed && c.account.serverKey == w.server.cfg.signKey ==> c.dhSrv.value.priv in w.server.issued)
  }

  ghost predicate PhaseOk(c: C.Client)
  {
    if c.encReady then !c.phase.Greeting? else c.phase.Greeting? || c.phase.Stopped?
  }

  ghost predicate Welcomed(w: World, c: C.Client)
  {
    c.authenticated ==>
      c.encReady && c.keyS2C.Some?
      && (c.account.serverKey == w.server.cfg.signKey ==>
            Announced(w.server.bindings, c.keyS2C.value, c.assignedIp, c.assignedPrefix))
  }

  ghost predicate ClientOk(w: World, c: C.Client)
  {
    HelloHeard(w, c) && PhaseOk(c) && (c.encReady ==> KeyedBy(w, c)) && SpeaksFor(c.identityMsg, c.account)
    && MsgKnown(w, c.identityMsg) && Welcomed(w, c)
  }

  ghost predicate ClientsOk(w: World)
  {
    forall i :: i in w.clients ==> ClientOk(w, w.clients[i])
  }

  /** A login on the server was asked for by a client that derived the same key. */
  ghost predicate AskedFor(derived: map<Pub, Derivation>, b: Binding)
  {
    exists p :: p in derived && b.keyC2S == Some(KeyOf(Tx, p, derived[p]))
                && b.cliPub == derived[p].account.identity && b.clientId == derived[p].account.clientId
  }

  /** A login under an identity or a key that is not an outsider's. */
  ghost predicate Ours(w: World, b: Binding)
  {
    (b.cliPub.Some? && b.cliPub.value !in w.foreignIds) || (b.keyC2S.Some? && !Foreign(w, b.keyC2S.value))
  }

  ghost predicate BoundOk(w: World)
  {
    forall b :: b in w.server.bindings && Ours(w, b) ==> AskedFor(w.derived, b)
  }

  /** The record only grows. */
  ghost predicate Onward(w: World, u: World)
  {
    && w.server.cfg == u.server.cfg && w.server.bindings <= u.server.bindings && w.server.issued <= u.server.issued
    && u.foreign == w.foreign && u.foreignIds == w.foreignIds && w.made <= u.made
    && forall p :: p in w.derived ==> p in u.derived && u.derived[p] == w.derived[p]
  }

  ghost predicate WorldInv(w: World)
  {
    Inv(w.server) && UniqueOk(w.server) && NetOk(w) && MadeOk(w) && ClientsOk(w) && BoundOk(w)
  }

  // ---- the server acts --------------------------------------------------------------------

  /** What one server event can add to the history. */
  lemma ServerAdds(st: Server, e: Event)
    requires Inv(st) && Possible(st, e)
    ensures var u := Step(st, e);
            && u.cfg == st.cfg && st.bindings <= u.bindings && st.issued <= u.issued && st.out <= u.out
            && (forall x :: x in u.issued && x !in st.issued ==> e.Arrive? && e.env.ephemeral == Some(x))
            && (forall b :: b in u.bindings && b !in st.bindings ==> Asked(st, e, b))
  {
    hide Inv, Step, CarriedBy, Moves;
    if e.Admit? {
      AdmitLog(st, e.key, e.env.now, e.env.victim);
      AdmitStep(st, e);
    } else {
      var mv, t := StepEffect(st, e);
      if Acting(st, e).Some? {
        var k := Acting(st, e).value;
        GateKeepsKey(st.sessions[k], t, mv, st.issued, k, st.cfg.prefix);
      }
    }
  }

  /** The binding was made for an identity message opened under its key. */
  ghost predicate Asked(st: Server, e: Event, b: Binding)
  {
    && e.Arrive? && e.key in st.sessions && b.keyC2S == st.sessions[e.key].keyC2S
    && exists t :: CarriedBy(st.sessions[e.key], t, e.frame) && b.clientId == t.clientId && b.cliPub == t.cliPub
  }

  lemma GateKeepsKey(s: Session, t: Session, mv: Move, issued: set<Priv>, k: PeerKey, prefix: nat)
    requires Moves(Core(s), t, mv, issued)
    ensures mv.Gated? ==> var b := BindingOf(k, t, prefix); b.keyC2S == s.keyC2S && b.clientId == t.clientId && b.cliPub == t.cliPub
  {
  }

  lemma ServerKeepsWorld(w: World, e: Event)
    requires WorldInv(w) && May(w, AtServer(e))
    ensures WorldInv(Next(w, AtServer(e)))
  {
    var u := Next(w, AtServer(e));
    StepKeeps(w.server, e);
    StepUnique(w.server, e);
    ServerAdds(w.server, e);
    assert HistoryOk(u.server);
    hide Inv, UniqueOk, Step, NetOk, ClientsOk, BoundOk, Asked, HistoryOk, Possible;
    ServerMakes(w, e);
    hide Onward, MadeOk;
    NetAfterServer(w, u);
    ClientsAfterServer(w, u);
    BoundAfterServer(w, e, u);
  }

  lemma ServerMakes(w: World, e: Event)
    requires MadeOk(w) && May(w, AtServer(e))
    requires var st, u := w.server, Step(w.server, e);
             && u.cfg == st.cfg && st.bindings <= u.bindings && st.issued <= u.issued
             && (forall x :: x in u.issued && x !in st.issued ==> e.Arrive? && e.env.ephemeral == Some(x))
    ensures Onward(w, Next(w, AtServer(e))) && MadeOk(Next(w, AtServer(e)))
  {
    hide Step, Possible;
  }

  lemma BoundAfterServer(w: World, e: Event, u: World)
    requires BoundOk(w) && NetOk(w) && MadeOk(w) && Inv(w.server) && Onward(w, u) && u.derived == w.derived
    requires e.Arrive? ==> e.frame in w.net
    requires forall b :: b in u.server.bindings && b !in w.server.bindings ==> Asked(w.server, e, b)
    ensures BoundOk(u)
  {
    hide NetOk, Inv, Asked, AskedFor, MadeOk;
    forall b | b in u.server.bindings && Ours(u, b)
      ensures AskedFor(u.derived, b)
    {
      StillOurs(w, u, b);
      if b !in w.server.bindings {
        assert e.Arrive? by { AskedArrives(w.server, e, b); }
        AskedIsOnRecord(w, e, b);
      }
    }
  }

  lemma StillOurs(w: World, u: World, b: Binding)
    requires u.foreign == w.foreign && u.foreignIds == w.foreignIds
    ensures Ours(u, b) <==> Ours(w, b)
  {
    assert forall key :: Foreign(u, key) <==> Foreign(w, key);
  }

  lemma AskedArrives(st: Server, e: Event, b: Binding)
    requires Asked(st, e, b)
    ensures e.Arrive?
  {
  }

  lemma NetAfterServer(w: World, u: World)
    requires NetOk(w) && HistoryOk(u.server) && Onward(w, u)
    requires u.net == w.net + FramesOf(u.server.out)
    ensures NetOk(u)
  {
    hide TxSound, FrameOk, Onward, FrameSound;
    forall f | f in u.net
      ensures FrameOk(u, f)
    {
      if f in w.net {
        assert FrameOk(w, f);
        FrameStaysOk(w, u, f);
      } else {
        var i :| 0 <= i < |u.server.out| && f == u.server.out[i].frame;
        assert FrameSound(u.server, u.server.out[i].frame);
        ServerFrameOk(u, f);
      }
    }
  }

  lemma ServerFrameOk(w: World, f: Frame)
    requires FrameSound(w.server, f)
    ensures FrameOk(w, f)
  {
  }

  lemma FrameStaysSound(st: Server, u: Server, f: Frame)
    requires st.cfg == u.cfg && st.bindings <= u.bindings && st.issued <= u.issued
    ensures FrameSound(st, f) ==> FrameSound(u, f)
  {
  }

  lemma TxStaysSound(w: World, u: World, key: SessionKey, inner: Inner)
    requires TxSound(w.derived, key, inner) && Onward(w, u)
    ensures TxSound(u.derived, key, inner)
  {
    var p :| p in w.derived && key == KeyOf(Tx, p, w.derived[p]) && (inner.InIdentity? ==> SpeaksFor(inner.msg, w.derived[p].account));
    assert p in u.derived;
  }

  lemma FrameStaysOk(w: World, u: World, f: Frame)
    requires FrameOk(w, f) && Onward(w, u)
    ensures FrameOk(u, f)
  {
    hide TxSound, FrameSound;
    assert f.payload.Sealed? ==> (Foreign(u, f.payload.key) <==> Foreign(w, f.payload.key));
    if f.payload.Sealed? && f.payload.key.dir.Tx? {
      if TxSound(w.derived, f.payload.key, f.payload.inner) {
        TxStaysSound(w, u, f.payload.key, f.payload.inner);
      }
    } else {
      FrameStaysSound(w.server, u.server, f);
    }
  }

  lemma ClientsAfterServer(w: World, u: World)
    requires ClientsOk(w) && u.clients == w.clients && Onward(w, u)
    ensures ClientsOk(u)
  {
    hide Onward, ClientOk;
    forall i | i in u.clients
      ensures ClientOk(u, u.clients[i])
    {
      ClientStaysOk(w, u, u.clients[i]);
    }
  }

  /** A client's standing survives whatever only adds to the record. */
  lemma ClientStaysOk(w: World, u: World, c: C.Client)
    requires ClientOk(w, c) && Onward(w, u)
    ensures ClientOk(u, c)
  {
  }

  lemma AskedIsOnRecord(w: World, e: Event, b: Binding)
    requires NetOk(w) && MadeOk(w) && Inv(w.server) && Asked(w.server, e, b) && e.frame in w.net && Ours(w, b)
    ensures AskedFor(w.derived, b)
  {
    var s := w.server.sessions[e.key];
    var t :| CarriedBy(s, t, e.frame) && b.clientId == t.clientId && b.cliPub == t.cliPub;
    var f, key, inner := e.frame, e.frame.payload.key, e.frame.payload.inner;
    assert FrameOk(w, f);
    ServerKeyIs(w.server, e.key);
    hide Inv, NetOk, TxSound;
    if Foreign(w, key) {
      assert SigKnown(w, inner.msg.value.sig);
      OursIsNotForeign(w, s, inner.msg.value);
    }
    AskedForBy(w, f, b);
  }

  lemma AskedForBy(w: World, f: Frame, b: Binding)
    requires f.payload.Sealed? && f.payload.key.dir.Tx? && TxSound(w.derived, f.payload.key, f.payload.inner)
    requires f.payload.inner.InIdentity? && f.payload.inner.msg.Some? && b.keyC2S == Some(f.payload.key)
    requires var m := f.payload.inner.msg.value; m.text.IdentityText? && b.clientId == m.text.clientId && b.cliPub == Some(m.text.cliPub)
    ensures AskedFor(w.derived, b)
  {
    var key, inner := f.payload.key, f.payload.inner;
    var p :| p in w.derived && key == KeyOf(Tx, p, w.derived[p]) && (inner.InIdentity? ==> SpeaksFor(inner.msg, w.derived[p].account));
  }

  /** An identity of ours names an ephemeral key of ours, so its session's key is no
      outsider's. */
  lemma OursIsNotForeign(w: World, s: Session, m: IdentityMsg)
    requires MadeOk(w) && IdentityHolds(s, m) && SigKnown(w, m.sig) && m.text.cliPub !in w.foreignIds
    requires s.dhSrv.Some? && s.dhSrv.value.priv in w.server.issued && s.keyC2S.Some? && s.dhCli.Some?
    requires s.keyC2S.value.secret == Shared({s.dhCli.value, s.dhSrv.value})
    ensures !Foreign(w, s.keyC2S.value)
  {
  }

  lemma ServerKeyIs(st: Server, k: PeerKey)
    requires Inv(st) && k in st.sessions && st.sessions[k].keyC2S.Some?
    ensures var s := st.sessions[k];
            && s.keyC2S.value.dir.Tx? && s.dhCli.Some? && s.dhSrv.Some? && s.dhSrv.value.priv in st.issued
            && s.keyC2S.value.secret == Shared({s.dhCli.value, s.dhSrv.value})
  {
    StageOf(st, k);
  }

  // ---- a client acts ------------------------------------------------------------------------

  ghost predicate ActOk(w: World, a: C.Act)
  {
    ClientOk(w, a.c) && forall j :: 0 <= j < |a.sent| ==> FrameOk(w, a.sent[j])
  }

  /** Fields that carry no claim. */
  ghost predicate Incidental(c: C.Client, d: C.Client)
  {
    d == c.(seqNo := d.seqNo, needReconnect := d.needReconnect, replay := d.replay, received := d.received, denyReason := d.denyReason)
  }

  lemma IncidentalOk(w: World, c: C.Client, d: C.Client)
    requires ClientOk(w, c) && Incidental(c, d)
    ensures ClientOk(w, d)
  {
  }

  lemma SendIsIncidental(c: C.Client, typ: MsgType, inner: Inner, clear: Clear, net: C.Net)
    ensures Incidental(c, C.Send(c, typ, inner, clear, net).c)
  {
    hide SealedType;
  }

  lemma SendOk(w: World, c: C.Client, typ: MsgType, inner: Inner, clear: Clear, net: C.Net)
    requires ClientOk(w, c) && !clear.ServerHello?
    requires inner.InIdentity? ==> SpeaksFor(inner.msg, c.account) && MsgKnown(w, inner.msg)
    ensures ActOk(w, C.Send(c, typ, inner, clear, net))
  {
    SendIsIncidental(c, typ, inner, clear, net);
    IncidentalOk(w, c, C.Send(c, typ, inner, clear, net).c);
    SendForms(c, typ, inner, clear, net);
    hide ClientOk, Incidental, SpeaksFor, MsgKnown, C.Send, KeyedBy, FrameOk;
    var sent := C.Send(c, typ, inner, clear, net).sent;
    if sent != [] {
      if sent[0].payload.Sealed? {
        ClientKey(w, c);
        ClientSeals(w, c, inner);
        SealedIsOk(w, sent[0]);
      } else {
        OpenIsOk(w, sent[0]);
      }
    }
  }

  /** A client sends at most one frame at a time, sealed under its own key or clear. */
  lemma SendForms(c: C.Client, typ: MsgType, inner: Inner, clear: Clear, net: C.Net)
    ensures var sent := C.Send(c, typ, inner, clear, net).sent;
            |sent| <= 1 && (sent != [] ==>
              if sent[0].payload.Sealed?
              then c.encReady && c.keyC2S == Some(sent[0].payload.key) && sent[0].payload.inner == inner
              else sent[0].payload == Open(clear))
  {
    hide SealedType;
  }

  lemma SealedIsOk(w: World, f: Frame)
    requires f.payload.Sealed? && f.payload.key.dir.Tx? && TxSound(w.derived, f.payload.key, f.payload.inner)
    requires f.payload.inner.InIdentity? ==> MsgKnown(w, f.payload.inner.msg)
    ensures FrameOk(w, f)
  {
  }

  lemma OpenIsOk(w: World, f: Frame)
    requires f.payload.Open? && !f.payload.clear.ServerHello?
    ensures FrameOk(w, f)
  {
  }

  lemma ClientKey(w: World, c: C.Client)
    requires ClientOk(w, c) && c.encReady
    ensures KeyedBy(w, c)
  {
  }

  lemma ClientSeals(w: World, c: C.Client, inner: Inner)
    requires KeyedBy(w, c) && (inner.InIdentity? ==> SpeaksFor(inner.msg, c.account))
    ensures c.keyC2S.Some? && c.keyC2S.value.dir.Tx? && TxSound(w.derived, c.keyC2S.value, inner)
  {
    assert c.dhCli.value in w.derived;
  }

  lemma HearOk(w: World, c: C.Client, f: Frame, net: C.Net)
    requires ClientOk(w, c) && FrameOk(w, f) && MadeOk(w)
    ensures ActOk(w, C.HandleFrame(c, f, net))
  {
    hide C.HandleInner, C.HandleServerHello, ClientOk, FrameOk, Unseal, MadeOk;
    if f.hdr.typ.MServerHello? && f.payload.Open? {
      HearHello(w, c, f);
    } else if SealedType(f.hdr.typ) && c.encReady && Unseal(c.keyS2C, f).Some? {
      var d := c.(replay := c.replay.Offer(f.hdr.seqNo));
      IncidentalOk(w, c, d) by { assert Incidental(c, d); }
      HearInner(w, d, f, Unseal(c.keyS2C, f).value, net);
    }
  }

  lemma HearHello(w: World, c: C.Client, f: Frame)
    requires ClientOk(w, c) && FrameOk(w, f) && f.payload.Open?
    ensures ClientOk(w, C.HandleServerHello(c, f.payload.clear))
  {
    var d := C.HandleServerHello(c, f.payload.clear);
    KeyedFrame(w, c, d);
    var p := f.payload.clear;
    if p.ServerHello? && c.account.serverKey.Some? && c.account.serverKey == w.server.cfg.signKey
       && Verifies(c.account.serverKey.value, HelloText(c.nonceC, p.nonceS, p.dhSrv), p.sig) {
      SignedByServer(w, c, f, p);
    }
    HeardFields(c, p);
    hide KeyedBy, Announced, FrameOk, Verifies, C.HandleServerHello, HelloHeard;
    HeardHello(w, c, p);
  }

  lemma HeardFields(c: C.Client, p: Clear)
    ensures var d := C.HandleServerHello(c, p);
            d == c.(nonceS := d.nonceS, dhSrv := d.dhSrv, helloOk := d.helloOk, authFailed := d.authFailed)
  {
  }

  lemma HeardHello(w: World, c: C.Client, p: Clear)
    requires HelloHeard(w, c)
    requires p.ServerHello? && c.account.serverKey.Some? && c.account.serverKey == w.server.cfg.signKey ==>
               Verifies(c.account.serverKey.value, HelloText(c.nonceC, p.nonceS, p.dhSrv), p.sig) ==> p.dhSrv.priv in w.server.issued
    ensures HelloHeard(w, C.HandleServerHello(c, p))
  {
  }

  lemma KeyedFrame(w: World, c: C.Client, d: C.Client)
    requires d.dhCli == c.dhCli && d.keyC2S == c.keyC2S && d.keyS2C == c.keyS2C && d.nonceC == c.nonceC && d.account == c.account
    ensures KeyedBy(w, c) ==> KeyedBy(w, d)
  {
  }

  /** A hello that verifies carries an ephemeral key of the server. */
  lemma SignedByServer(w: World, c: C.Client, f: Frame, p: Clear)
    requires FrameOk(w, f) && f.payload == Open(p)
    requires p.ServerHello? && c.account.serverKey.Some? && c.account.serverKey == w.server.cfg.signKey
    requires Verifies(c.account.serverKey.value, HelloText(c.nonceC, p.nonceS, p.dhSrv), p.sig)
    ensures p.dhSrv.priv in w.server.issued
  {
  }

  lemma HearInner(w: World, c: C.Client, f: Frame, inner: Inner, net: C.Net)
    requires ClientOk(w, c) && FrameOk(w, f) && MadeOk(w) && c.encReady && Unseal(c.keyS2C, f) == Some(inner)
    ensures ActOk(w, C.HandleInner(c, inner, net))
  {
    var d := C.HandleInner(c, inner, net).c;
    OpenedKey(c.keyS2C, f);
    ClientKeyIsRx(w, c);
    if c.account.serverKey == w.server.cfg.signKey {
      ClientKeyIsOurs(w, c);
    }
    hide C.Send, ClientOk;
    SendOk(w, c, MHeartResponse, InHeartResponse, Junk, net);
    if inner.InIdentityOk? {
      Welcome(w, c, inner.vip, inner.prefix) by { hide TxSound; }
    } else if inner.InIdentityDeny? {
      Denied(w, c, inner.reason);
    } else if inner.InData? {
      IncidentalOk(w, c, d) by { assert Incidental(c, d); }
    } else if inner.InDisconnect? {
      IncidentalOk(w, c, d) by { assert Incidental(c, d); }
    }
  }

  /** The keys of a client that knows the server's key are not an outsider's. */
  lemma ClientKeyIsOurs(w: World, c: C.Client)
    requires ClientOk(w, c) && MadeOk(w) && c.encReady && c.account.serverKey == w.server.cfg.signKey
    ensures c.keyS2C.Some? && !Foreign(w, c.keyS2C.value)
  {
  }

  lemma OpenedKey(key: Option<SessionKey>, f: Frame)
    requires Unseal(key, f).Some?
    ensures f.payload.Sealed? && key == Some(f.payload.key) && Unseal(key, f) == Some(f.payload.inner)
  {
  }

  lemma ClientKeyIsRx(w: World, c: C.Client)
    requires ClientOk(w, c) && c.encReady
    ensures c.keyS2C.Some? && c.keyS2C.value.dir.Rx?
  {
  }

  lemma Welcome(w: World, c: C.Client, vip: nat, prefix: nat)
    requires ClientOk(w, c) && c.encReady && c.keyS2C.Some?
    requires c.account.serverKey == w.server.cfg.signKey ==> Announced(w.server.bindings, c.keyS2C.value, vip, prefix)
    ensures ClientOk(w, c.(authenticated := true, assignedIp := vip, assignedPrefix := prefix))
  {
    hide Announced;
  }

  lemma Denied(w: World, c: C.Client, reason: nat)
    requires ClientOk(w, c)
    ensures ClientOk(w, c.(denyReason := reason, authFailed := true))
  {
    hide Announced;
  }

  lemma IdentifyOk(w: World, c: C.Client, signOk: bool, net: C.Net)
    requires ClientOk(w, c)
    ensures ActOk(w, C.Identify(c, signOk, net))
  {
    hide C.Send, C.BuildIdentity, FrameOk, ClientOk, SpeaksFor, MsgKnown;
    var m := C.BuildIdentity(c);
    StopOk(w, c);
    if c.phase.Deriving? && m.Some? && signOk {
      var d := c.(phase := C.Identifying, identityMsg := m);
      BuiltSpeaks(w, c);
      ToldOk(w, c, d);
      SendOk(w, d, MIdentity, InIdentity(m), Junk, net);
    }
  }

  lemma ToldOk(w: World, c: C.Client, d: C.Client)
    requires ClientOk(w, c) && c.phase.Deriving? && d == c.(phase := C.Identifying, identityMsg := d.identityMsg)
    requires SpeaksFor(d.identityMsg, c.account) && MsgKnown(w, d.identityMsg)
    ensures ClientOk(w, d)
  {
    KeyedFrame(w, c, d);
    hide KeyedBy, Announced, SpeaksFor, MsgKnown;
  }

  lemma BuiltSpeaks(w: World, c: C.Client)
    requires ClientOk(w, c) && c.phase.Deriving?
    ensures SpeaksFor(C.BuildIdentity(c), c.account) && MsgKnown(w, C.BuildIdentity(c))
  {
  }

  lemma RepeatOk(w: World, c: C.Client, first: C.Net, second: C.Net)
    requires ClientOk(w, c)
    ensures ActOk(w, C.Repeat(c, first, second))
  {
    if c.phase.Identifying? {
      assert c.dhCli.Some?;
      var hello := C.Send(c, MClientHello, InOther, ClientHello(c.dhCli.value), first);
      SendIsIncidental(c, MClientHello, InOther, ClientHello(c.dhCli.value), first);
      assert hello.c.identityMsg == c.identityMsg && hello.c.account == c.account && SpeaksFor(c.identityMsg, c.account)
             && MsgKnown(w, c.identityMsg);
      hide ClientOk, C.Send, FrameOk, SpeaksFor, MsgKnown;
      SendOk(w, c, MClientHello, InOther, ClientHello(c.dhCli.value), first);
      SendOk(w, hello.c, MIdentity, InIdentity(hello.c.identityMsg), Junk, second);
    }
  }

  /** Only the phase and the reconnect and online flags differ. */
  lemma PhaseChange(w: World, c: C.Client, d: C.Client)
    requires ClientOk(w, c) && PhaseOk(d)
    requires d == c.(phase := d.phase, needReconnect := d.needReconnect, handshaked := d.handshaked)
    ensures ClientOk(w, d)
  {
    KeyedFrame(w, c, d);
    hide KeyedBy, Announced, PhaseOk;
  }

  lemma ClientPhase(w: World, c: C.Client)
    requires ClientOk(w, c)
    ensures PhaseOk(c)
  {
    hide KeyedBy, HelloHeard, Welcomed;
  }

  lemma ConcludePhase(c: C.Client)
    requires PhaseOk(c)
    ensures var d := C.Conclude(c);
            PhaseOk(d) && d == c.(phase := d.phase, needReconnect := d.needReconnect, handshaked := d.handshaked)
  {
  }

  lemma ConcludeOk(w: World, c: C.Client)
    requires ClientOk(w, c)
    ensures ClientOk(w, C.Conclude(c))
  {
    hide ClientOk, PhaseOk, C.Conclude;
    ClientPhase(w, c);
    ConcludePhase(c);
    PhaseChange(w, c, C.Conclude(c));
  }

  lemma TimeOutOk(w: World, c: C.Client)
    requires ClientOk(w, c)
    ensures ClientOk(w, C.TimeOut(c))
  {
    ClientPhase(w, c);
    hide ClientOk;
    PhaseChange(w, c, C.TimeOut(c));
  }

  lemma StopOk(w: World, c: C.Client)
    requires ClientOk(w, c)
    ensures ClientOk(w, C.Stop(c)) && ClientOk(w, c.(phase := C.Stopped))
  {
    hide ClientOk;
    PhaseChange(w, c, C.Stop(c));
    PhaseChange(w, c, c.(phase := C.Stopped));
  }

  lemma LeaveOk(w: World, c: C.Client, net: C.Net)
    requires ClientOk(w, c)
    ensures ActOk(w, C.Leave(c, net))
  {
    SendOk(w, c, MDisconnect, InDisconnect, Junk, net);
    var bye := C.Send(c, MDisconnect, InDisconnect, Junk, net);
    SendIsIncidental(c, MDisconnect, InDisconnect, Junk, net);
    assert c.phase.Online? ==> bye.c.encReady;
    hide C.Send, ClientOk, FrameOk;
    StopOk(w, bye.c);
  }

  lemma ClientActOk(w: World, c: C.Client, h: Happening)
    requires ClientOk(w, c) && MadeOk(w) && !h.Derive? && (h.Hear? ==> FrameOk(w, h.frame))
    ensures ActOk(w, ClientAct(c, h))
  {
    hide ClientOk, FrameOk, MadeOk, C.Send, C.HandleFrame, C.Identify, C.Repeat, C.Leave, C.Conclude, C.TimeOut;
    match h
    case Greet(_, net) => SendOk(w, c, MAuthHello, InOther, Hello(c.nonceC), net);
    case Identify(_, signOk, net) => IdentifyOk(w, c, signOk, net);
    case Repeat(_, first, second) => RepeatOk(w, c, first, second);
    case Conclude(_) => ConcludeOk(w, c);
    case TimeOut(_) => TimeOutOk(w, c);
    case Transmit(_, inner, net) =>
      SendOk(w, c, MHeart, InHeart, Junk, net);
      if inner.InData? { SendOk(w, c, MData, inner, Junk, net); }
    case Leave(_, net) => LeaveOk(w, c, net);
    case Hear(_, f, net) => HearOk(w, c, f, net);
    case _ =>
  }

  // ---- deriving -----------------------------------------------------------------------------

  /** Recording a new derivation takes nothing away. */
  ghost predicate Extends(w: World, u: World)
  {
    u.server == w.server && Onward(w, u)
  }

  lemma BoundStaysOk(w: World, u: World)
    requires BoundOk(w) && Extends(w, u)
    ensures BoundOk(u)
  {
    hide Ours;
    forall b | b in u.server.bindings && Ours(u, b)
      ensures AskedFor(u.derived, b)
    {
      StillOurs(w, u, b);
      assert AskedFor(w.derived, b);
      var p :| p in w.derived && b.keyC2S == Some(KeyOf(Tx, p, w.derived[p]))
               && b.cliPub == w.derived[p].account.identity && b.clientId == w.derived[p].account.clientId;
      assert p in u.derived;
    }
  }

  /** A client files its new state and frames in a world that knows at least as much. */
  lemma FiledOk(w: World, i: nat, a: C.Act, u: World)
    requires WorldInv(w) && Extends(w, u) && ActOk(u, a) && MadeOk(u)
    requires u.clients == w.clients[i := a.c] && u.net == w.net + (set j | 0 <= j < |a.sent| :: a.sent[j])
    ensures WorldInv(u)
  {
    hide Inv, UniqueOk, ClientOk, FrameOk, AskedFor;
    BoundStaysOk(w, u);
    forall f | f in u.net
      ensures FrameOk(u, f)
    {
      if f in w.net {
        FrameStaysOk(w, u, f);
      }
    }
    forall l | l in u.clients
      ensures ClientOk(u, u.clients[l])
    {
      if l != i {
        ClientStaysOk(w, u, u.clients[l]);
      }
    }
  }

  /** What a key derivation that succeeds leaves behind. */
  ghost predicate DerivedBy(c: C.Client, e: Priv, d: C.Client)
  {
    && c.nonceS.Some? && c.dhSrv.Some?
    && d == c.(dhPriv := Some(e), dhCli := Some(Pub(e)), seqNo := d.seqNo, needReconnect := d.needReconnect,
               keyC2S := Some(KeyOf(Tx, Pub(e), DerivationOf(c))), keyS2C := Some(KeyOf(Rx, Pub(e), DerivationOf(c))),
               encReady := true, phase := C.Deriving)
  }

  lemma DeriveForms(c: C.Client, e: Option<Priv>, dhOk: bool, net: C.Net)
    requires c.phase.Greeting?
    ensures var a := C.Derive(c, e, dhOk, net);
            if a.c.phase.Deriving? then
              && e.Some? && c.helloOk && !c.authFailed && DerivedBy(c, e.value, a.c)
              && a.sent == C.Send(c.(dhPriv := e, dhCli := Some(Pub(e.value))), MClientHello, InOther, ClientHello(Pub(e.value)), net).sent
            else
              && a.c == c.(phase := a.c.phase, dhPriv := a.c.dhPriv, dhCli := a.c.dhCli, seqNo := a.c.seqNo, needReconnect := a.c.needReconnect)
              && (a.c.phase.Greeting? || a.c.phase.Stopped?)
              && (a.sent == [] || (e.Some? &&
                  a.sent == C.Send(c.(dhPriv := e, dhCli := Some(Pub(e.value))), MClientHello, InOther, ClientHello(Pub(e.value)), net).sent))
  {
    if e.Some? {
      HelloSent(c, e.value, net);
      hide C.Send;
    }
  }

  lemma HelloSent(c: C.Client, e: Priv, net: C.Net)
    ensures var d := C.Send(c.(dhPriv := Some(e), dhCli := Some(Pub(e))), MClientHello, InOther, ClientHello(Pub(e)), net).c;
            d == c.(dhPriv := Some(e), dhCli := Some(Pub(e)), seqNo := d.seqNo, needReconnect := d.needReconnect)
  {
    hide SealedType;
  }

  lemma UnderwayOk(w: World, c: C.Client, d: C.Client)
    requires ClientOk(w, c) && c.phase.Greeting? && (d.phase.Greeting? || d.phase.Stopped?)
    requires d == c.(phase := d.phase, dhPriv := d.dhPriv, dhCli := d.dhCli, seqNo := d.seqNo, needReconnect := d.needReconnect)
    ensures ClientOk(w, d)
  {
  }

  lemma DerivedOk(w: World, u: World, c: C.Client, e: Priv, d: C.Client)
    requires ClientOk(w, c) && c.phase.Greeting? && c.helloOk && !c.authFailed && DerivedBy(c, e, d)
    requires Extends(w, u) && Pub(e) in u.derived && u.derived[Pub(e)] == DerivationOf(c) && e in u.made
    ensures ClientOk(u, d)
  {
    assert c.account.serverKey == w.server.cfg.signKey ==> c.dhSrv.value.priv in w.server.issued;
    DerivedKeyed(u, c, e, d);
    assert !c.authenticated && !c.encReady;
    hide KeyedBy, DerivedBy;
    assert HelloHeard(u, d) && PhaseOk(d) && SpeaksFor(d.identityMsg, d.account) && MsgKnown(u, d.identityMsg) && Welcomed(u, d) by {
      DerivedRest(c, e, d);
    }
  }

  lemma DerivedRest(c: C.Client, e: Priv, d: C.Client)
    requires DerivedBy(c, e, d)
    ensures d.helloOk == c.helloOk && d.authFailed == c.authFailed && d.nonceS == c.nonceS && d.dhSrv == c.dhSrv
            && d.account == c.account && d.identityMsg == c.identityMsg && d.authenticated == c.authenticated
            && d.encReady && d.phase.Deriving?
  {
  }

  lemma DerivedKeyed(u: World, c: C.Client, e: Priv, d: C.Client)
    requires DerivedBy(c, e, d) && Pub(e) in u.derived && u.derived[Pub(e)] == DerivationOf(c) && e in u.made
    requires c.account.serverKey == u.server.cfg.signKey ==> c.dhSrv.value.priv in u.server.issued
    ensures KeyedBy(u, d)
  {
  }

  lemma DeriveKeeps(w: World, h: Happening)
    requires WorldInv(w) && h.Derive? && May(w, h)
    ensures WorldInv(Next(w, h))
  {
    var c := w.clients[h.i];
    var a := C.Derive(c, h.ephemeral, h.dhOk, h.net);
    var u := Next(w, h);
    assert ClientOk(w, c);
    assert u == Noted(Acted(w, h.i, a), c, h);
    hide Inv, UniqueOk, NetOk, BoundOk, ClientOk, FrameOk, ActOk, C.Derive, C.Send;
    MadeStaysOk(w, h, a);
    DeriveActOk(w, u, c, h.ephemeral, h.dhOk, h.net);
    FiledOk(w, h.i, a, u);
  }

  lemma DeriveActOk(w: World, u: World, c: C.Client, e: Option<Priv>, dhOk: bool, net: C.Net)
    requires ClientOk(w, c) && Extends(w, u) && (e.Some? ==> e.value in u.made)
    requires var d := C.Derive(c, e, dhOk, net).c;
             e.Some? && c.phase.Greeting? && d.phase.Deriving? && d.nonceS.Some? && d.dhSrv.Some? ==>
               Pub(e.value) in u.derived && u.derived[Pub(e.value)] == DerivationOf(d)
    ensures ActOk(u, C.Derive(c, e, dhOk, net))
  {
    hide ClientOk, FrameOk, C.Derive, C.Send, DerivedBy, Onward;
    var d := C.Derive(c, e, dhOk, net).c;
    if c.phase.Greeting? {
      DeriveForms(c, e, dhOk, net);
      if e.Some? {
        var c' := c.(dhPriv := e, dhCli := Some(Pub(e.value)));
        UnderwayOk(w, c, c');
        SendOk(w, c', MClientHello, InOther, ClientHello(Pub(e.value)), net);
        SentStays(w, u, C.Send(c', MClientHello, InOther, ClientHello(Pub(e.value)), net));
      }
      if d.phase.Deriving? {
        DerivedRest(c, e.value, d);
        DerivedSame(c, e.value, d);
        DerivedOk(w, u, c, e.value, d);
      } else {
        UnderwayOk(w, c, d);
        ClientStaysOk(w, u, d);
      }
    } else {
      NoDerivation(c, e, dhOk, net);
      ClientStaysOk(w, u, c);
    }
  }

  lemma NoDerivation(c: C.Client, e: Option<Priv>, dhOk: bool, net: C.Net)
    requires !c.phase.Greeting?
    ensures C.Derive(c, e, dhOk, net) == C.Act(c, [])
  {
  }

  lemma DerivedSame(c: C.Client, e: Priv, d: C.Client)
    requires DerivedBy(c, e, d)
    ensures d.nonceS.Some? && d.dhSrv.Some? && DerivationOf(d) == DerivationOf(c)
  {
  }

  lemma SentStays(w: World, u: World, a: C.Act)
    requires ActOk(w, a) && Extends(w, u)
    ensures forall j :: 0 <= j < |a.sent| ==> FrameOk(u, a.sent[j])
  {
    hide FrameOk, Onward, ClientOk;
    forall j | 0 <= j < |a.sent|
      ensures FrameOk(u, a.sent[j])
    {
      FrameStaysOk(w, u, a.sent[j]);
    }
  }

  lemma MadeStaysOk(w: World, h: Happening, a: C.Act)
    requires MadeOk(w) && h.Derive? && May(w, h)
    ensures var u := Noted(Acted(w, h.i, a), w.clients[h.i], h);
            && MadeOk(u) && Extends(w, u)
            && u.clients == w.clients[h.i := a.c] && u.net == w.net + (set j | 0 <= j < |a.sent| :: a.sent[j])
            && (h.ephemeral.Some? ==> h.ephemeral.value in u.made)
            && (h.ephemeral.Some? && w.clients[h.i].phase.Greeting? && a.c.phase.Deriving? && a.c.nonceS.Some? && a.c.dhSrv.Some? ==>
                  Pub(h.ephemeral.value) in u.derived && u.derived[Pub(h.ephemeral.value)] == DerivationOf(a.c))
  {
  }

  // ---- every execution ------------------------------------------------------------------------

  lemma StartKeeps(w: World, h: Happening)
    requires WorldInv(w) && h.Start?
    ensures WorldInv(Next(w, h))
  {
    var u := Next(w, h);
    hide Inv, UniqueOk, FrameOk, AskedFor;
    forall f | f in u.net
      ensures FrameOk(u, f)
    {
      FrameStaysOk(w, u, f);
    }
    BoundStaysOk(w, u);
    forall i | i in u.clients
      ensures ClientOk(u, u.clients[i])
    {
      if i == h.i {
        StartOk(u, if i in w.clients then w.clients[i] else NoClient(), h.account, h.tcp, h.nonceC);
      } else {
        ClientStaysOk(w, u, u.clients[i]);
      }
    }
  }

  lemma StartOk(w: World, c: C.Client, account: C.Account, tcp: bool, nonceC: Nonce)
    ensures ClientOk(w, C.Start(c, account, tcp, nonceC))
  {
  }

  lemma InjectKeeps(w: World, f: Frame)
    requires WorldInv(w) && MayInject(w, f)
    ensures WorldInv(Next(w, Inject(f)))
  {
    var u := Next(w, Inject(f));
    InjectedOk(w, f) by { hide Inv, UniqueOk; }
    InjectShape(w, f);
    hide Inv, UniqueOk, NetOk, FrameOk, BoundOk, ClientsOk, Extends, MadeOk, Next, MayInject;
    NetGrows(w, u, {f});
    BoundStaysOk(w, u);
    ClientsStayOk(w, u);
  }

  lemma InjectShape(w: World, f: Frame)
    ensures var u := Next(w, Inject(f));
            Extends(w, u) && u == w.(net := w.net + {f}) && (MadeOk(w) ==> MadeOk(u))
  {
  }

  lemma NetGrows(w: World, u: World, fs: set<Frame>)
    requires NetOk(w) && Extends(w, u) && u.net == w.net + fs
    requires forall f :: f in fs ==> FrameOk(w, f)
    ensures NetOk(u)
  {
    hide FrameOk, Onward;
    forall f | f in u.net
      ensures FrameOk(u, f)
    {
      FrameStaysOk(w, u, f);
    }
  }

  lemma ClientsStayOk(w: World, u: World)
    requires ClientsOk(w) && Extends(w, u) && u.clients == w.clients
    ensures ClientsOk(u)
  {
    ClientsAfterServer(w, u);
  }

  lemma InjectedOk(w: World, f: Frame)
    requires NetOk(w) && MayInject(w, f)
    ensures FrameOk(w, f)
  {
    hide TxSound;
    if f.payload.Open? {
      var p := f.payload.clear;
      if p.ServerHello? && p.sig.Signature? && Some(p.sig.signer) == w.server.cfg.signKey {
        var g :| g in w.net && g.payload.Open? && g.payload.clear.ServerHello? && g.payload.clear.sig == p.sig;
        assert FrameOk(w, g);
      }
    } else if f.payload.inner.InIdentity? && f.payload.inner.msg.Some? && ClaimedBefore(w, f.payload.inner.msg.value.sig) {
      var g :| g in w.net && g.payload.Sealed? && g.payload.inner.InIdentity?
               && g.payload.inner.msg.Some? && g.payload.inner.msg.value.sig == f.payload.inner.msg.value.sig;
      assert FrameOk(w, g);
    }
  }

  lemma NextKeeps(w: World, h: Happening)
    requires WorldInv(w) && May(w, h)
    ensures WorldInv(Next(w, h))
  {
    hide WorldInv, Next;
    match h
    case AtServer(e) => ServerKeepsWorld(w, e);
    case Start(_, _, _, _) => StartKeeps(w, h);
    case Derive(_, _, _, _) => DeriveKeeps(w, h);
    case Inject(f) => InjectKeeps(w, f);
    case _ => ClientKeeps(w, h);
  }

  lemma ClientKeeps(w: World, h: Happening)
    requires WorldInv(w) && May(w, h)
    requires !h.AtServer? && !h.Start? && !h.Derive? && !h.Inject?
    ensures WorldInv(Next(w, h))
  {
    var a := ClientAct(w.clients[h.i], h);
    assert ClientOk(w, w.clients[h.i]);
    assert h.Hear? ==> FrameOk(w, h.frame);
    hide ClientOk, FrameOk, ClientAct, Inv, UniqueOk, BoundOk, ClientsOk, NetOk;
    ClientActOk(w, w.clients[h.i], h);
    ExtendsSelf(w, h.i, a);
    hide ActOk, Extends, MadeOk;
    FiledOk(w, h.i, a, Next(w, h));
  }

  lemma ExtendsSelf(w: World, i: nat, a: C.Act)
    requires ActOk(w, a) && MadeOk(w)
    ensures var u := Acted(w, i, a); Extends(w, u) && ActOk(u, a) && MadeOk(u)
  {
    var u := Acted(w, i, a);
    ClientStaysOk(w, u, a.c);
    SentStays(w, u, a);
    hide ClientOk, FrameOk;
  }

  lemma {:induction false} ExecutionKeeps(ws: seq<World>, hs: seq<Happening>, n: nat)
    requires Execution(ws, hs) && n <= |hs|
    ensures WorldInv(ws[n])
  {
    hide WorldInv, May, Next;
    if n == 0 {
      BeganIsInv(ws[0]);
    } else {
      ExecutionKeeps(ws, hs, n - 1);
      assert May(ws[n - 1], hs[n - 1]) && ws[n - 1 + 1] == Next(ws[n - 1], hs[n - 1]);
      NextKeeps(ws[n - 1], hs[n - 1]);
    }
  }

  lemma BeganIsInv(w: World)
    requires Began(w)
    ensures WorldInv(w)
  {
    StartedIsInv(w.server);
    StartedIsUnique(w.server);
    hide Inv, UniqueOk;
  }

  // ---- agreement ----------------------------------------------------------------------------

  /** The binding describes this client's derivation: same nonces, public values,
      mirrored keys, same identity. */
  ghost predicate SameSession(b: Binding, p: Pub, d: Derivation)
  {
    && b.nonceC == Some(d.nonceC) && b.nonceS == Some(d.nonceS)
    && b.dhCli == Some(p) && b.dhSrv == Some(d.dhSrv)
    && b.keyC2S == Some(KeyOf(Tx, p, d)) && b.keyS2C == Some(KeyOf(Rx, p, d))
    && b.clientId == d.account.clientId && b.cliPub == d.account.identity
  }

  /** A login under a key that a client derived is under no outsider's. */
  lemma SharedKeyIsOurs(w: World, b: Binding, p: Pub)
    requires MadeOk(w) && BindingSound(w.server, b) && b.dhSrv.value.priv in w.server.issued && p in w.derived
    requires b.keyC2S == Some(KeyOf(Tx, p, w.derived[p])) || b.keyS2C == Some(KeyOf(Rx, p, w.derived[p]))
    ensures b.dhCli == Some(p) && b.dhSrv == Some(w.derived[p].dhSrv) && Ours(w, b)
  {
    SameEnds(p, w.derived[p].dhSrv, b.dhCli.value, b.dhSrv.value);
  }

  /** Whichever of its keys they share, a binding and a derivation share everything. */
  lemma SharedKeyIsSameSession(w: World, b: Binding, p: Pub)
    requires WorldInv(w) && b in w.server.bindings && p in w.derived
    requires b.keyC2S == Some(KeyOf(Tx, p, w.derived[p])) || b.keyS2C == Some(KeyOf(Rx, p, w.derived[p]))
    ensures SameSession(b, p, w.derived[p])
  {
    assert BindingSound(w.server, b);
    assert b.dhSrv.value.priv in w.server.issued;
    hide Inv, UniqueOk, NetOk, ClientsOk;
    SharedKeyIsOurs(w, b, p);
    assert AskedFor(w.derived, b);
    var q :| q in w.derived && b.keyC2S == Some(KeyOf(Tx, q, w.derived[q]))
             && b.cliPub == w.derived[q].account.identity && b.clientId == w.derived[q].account.clientId;
    hide BoundOk;
    SameEnds(q, w.derived[q].dhSrv, b.dhCli.value, b.dhSrv.value);
  }

  /** Equal pairs whose second member differs from the other's first are equal in order. */
  lemma SameEnds(p: Pub, x: Pub, q: Pub, y: Pub)
    requires {p, x} == {q, y} && p != y
    ensures p == q && x == y
  {
    assert p in {q, y} && x in {q, y} && q in {p, x} && y in {p, x};
  }

  /** Agreement. On every execution, with frames lost, repeated, reordered or
      misdelivered: when a client that knows the server's key is authenticated, exactly
      one login was made on the server with its keys; both ends hold the same nonces
      and public values, the server's names for it are its own, and the address and
      prefix it was told are those the server bound to that login. */
  lemma ClientAgrees(ws: seq<World>, hs: seq<Happening>, n: nat, i: nat)
    requires Execution(ws, hs) && n <= |hs| && i in ws[n].clients
    requires var c := ws[n].clients[i]; c.authenticated && c.account.serverKey == ws[n].server.cfg.signKey
    ensures var w := ws[n];
            var c := w.clients[i];
            && c.dhCli.Some? && c.dhCli.value in w.derived
            && c.keyC2S == Some(KeyOf(Tx, c.dhCli.value, w.derived[c.dhCli.value]))
            && c.keyS2C == Some(KeyOf(Rx, c.dhCli.value, w.derived[c.dhCli.value]))
            && w.derived[c.dhCli.value].nonceC == c.nonceC && w.derived[c.dhCli.value].account == c.account
            && exists b :: b in w.server.bindings && SameSession(b, c.dhCli.value, w.derived[c.dhCli.value])
                           && b.vip == c.assignedIp && b.prefix == c.assignedPrefix
                           && forall b' :: b' in w.server.bindings && b'.keyS2C == c.keyS2C ==> b' == b
  {
    ExecutionKeeps(ws, hs, n);
    var w := ws[n];
    var c := w.clients[i];
    assert ClientOk(w, c);
    hide Execution;
    assert Announced(w.server.bindings, c.keyS2C.value, c.assignedIp, c.assignedPrefix);
    var b :| b in w.server.bindings && b.keyS2C == Some(c.keyS2C.value) && b.vip == c.assignedIp && b.prefix == c.assignedPrefix;
    var p := c.dhCli.value;
    SharedKeyIsSameSession(w, b, p);
    forall b' | b' in w.server.bindings && b'.keyS2C == c.keyS2C
      ensures b' == b
    {
      SharedKeyIsSameSession(w, b', p);
      assert OneLogin(w.server);
    }
  }

  /** And the other way round: every login on the server under an identity or a key
      that is no outsider's was asked for by exactly one client derivation, with the
      same nonces, keys and identity, and no derivation is behind two logins. */
  lemma ServerAgrees(ws: seq<World>, hs: seq<Happening>, n: nat, b: Binding)
    requires Execution(ws, hs) && n <= |hs| && b in ws[n].server.bindings && Ours(ws[n], b)
    ensures exists p :: p in ws[n].derived && SameSession(b, p, ws[n].derived[p])
    ensures forall p, d :: SameSession(b, p, d) ==>
              && (forall b' :: b' in ws[n].server.bindings && SameSession(b', p, d) ==> b' == b)
              && (forall q, e :: SameSession(b, q, e) ==> q == p)
  {
    ExecutionKeeps(ws, hs, n);
    var w := ws[n];
    assert AskedFor(w.derived, b);
    assert OneLogin(w.server);
    hide Execution, WorldInv, Ours;
    var p :| p in w.derived && b.keyC2S == Some(KeyOf(Tx, p, w.derived[p]))
             && b.cliPub == w.derived[p].account.identity && b.clientId == w.derived[p].account.clientId;
    SharedKeyIsSameSession(w, b, p);
  }

  // ---- late hellos --------------------------------------------------------------------------

  /** A client and a server session with one key: nonces and client values match. */
  ghost predicate Paired(w: World, s: Session, c: C.Client)
  {
    && (exists k :: k in w.server.sessions && w.server.sessions[k] == s)
    && (exists i :: i in w.clients && w.clients[i] == c)
    && s.encReady && c.encReady && s.keyC2S == c.keyC2S
  }

  lemma PairedMatch(w: World, s: Session, c: C.Client)
    requires WorldInv(w) && Paired(w, s, c)
    ensures s.nonceC == Some(c.nonceC) && s.dhCli == c.dhCli && s.dhCli.Some? && s.nonceS.Some? && s.dhSrv.Some?
  {
    var k :| k in w.server.sessions && w.server.sessions[k] == s;
    var i :| i in w.clients && w.clients[i] == c;
    StageOf(w.server, k);
    assert ClientOk(w, c);
    assert s.dhSrv.value.priv in w.server.spent;
    SameEnds(c.dhCli.value, w.derived[c.dhCli.value].dhSrv, s.dhCli.value, s.dhSrv.value);
  }

  /** The server accepts the client's identity message exactly when the values the
      client has stored at the moment it builds it are still those of the session. */
  lemma IdentityFitsIff(w: World, s: Session, c: C.Client)
    requires WorldInv(w) && Paired(w, s, c) && C.BuildIdentity(c).Some?
    ensures IdentityHolds(s, C.BuildIdentity(c).value) <==> c.nonceS == s.nonceS && c.dhSrv == s.dhSrv
  {
    PairedMatch(w, s, c);
    hide WorldInv, Paired;
  }

  /** So a ServerHello heard after the keys are derived, genuine or not, leaves the
      keys alone and spoils the login exactly when it differs from the one they were
      derived from. */
  lemma LateHelloSpoilsIff(w: World, s: Session, c: C.Client, p: Clear)
    requires WorldInv(w) && Paired(w, s, c) && C.BuildIdentity(c).Some? && p.ServerHello?
    ensures var d := C.HandleServerHello(c, p);
            && d.keyC2S == c.keyC2S && d.keyS2C == c.keyS2C
            && C.BuildIdentity(d).Some?
            && (IdentityHolds(s, C.BuildIdentity(d).value) <==> Some(p.nonceS) == s.nonceS && Some(p.dhSrv) == s.dhSrv)
  {
    PairedMatch(w, s, c);
    hide WorldInv, Paired;
  }

  /** The server's goodbye changes nothing at any client. */
  lemma ByeIsIgnored(st: Server, k: PeerKey, sendOk: bool, c: C.Client, net: C.Net)
    requires k in st.sessions
    ensures var r := Send(st, k, MDisconnect, InDisconnect, Junk, sendOk);
            r.ok ==> |r.st.out| == |st.out| + 1 && C.HandleFrame(c, r.st.out[|st.out|].frame, net) == C.Act(c, [])
  {
    ByeIsNeverSealed(st, k, sendOk);
    hide Send, C.HandleInner, C.HandleServerHello;
  }
}
