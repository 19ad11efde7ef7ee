/** Each handler keeps the server invariant. */
module ServerSteps {
  import opened Text
  import opened Replay
  import opened Protocol
  import opened VipPool
  import opened RateLimiters
  import opened ServerSpec
  import opened ServerInv

  /** Randomness is fresh: an ephemeral key is never made twice. */
  predicate EnvFresh(st: Server, env: Env)
  {
    env.ephemeral.Some? ==> env.ephemeral.value !in st.issued
  }

  // ---- auth_hello -----------------------------------------------------------------

  lemma SendServerHelloKeeps(st: Server, k: PeerKey, signKey: SigKey, env: Env)
    requires Inv(st) && k in st.sessions && st.cfg.signKey == Some(signKey)
    requires var s := st.sessions[k];
             s.stage.HelloSent? && s.dhSrv.Some? && s.dhSrv.value.priv in st.issued
    requires var s := st.sessions[k]; s.nonceC.Some? && s.nonceS.Some?
    ensures Inv(SendServerHello(st, k, signKey, env))
  {
    var s := st.sessions[k];
    InvParts(st);
    StageOf(st, k);
    CachedReply(st.cfg, s, signKey);
    hide Inv, Send, QuietChange, HelloReply, HelloCacheOk, StageOk, Sendable, WithReply, CapsOk, VipOk, StagesOk, EphemeralsOk, HistoryOk;
    if s.hello.Some? || env.signOk {
      var cached := WithReply(s, signKey);
      SendsCached(st, k, signKey, env);
      PutQuiet(st, k, cached);
      ReplyIsSendable(Put(st, k, cached), k, s.dhSrv.value);
      SendKeeps(Put(st, k, cached), k, MServerHello, InOther, cached.hello.value, env.sendOk);
    }
  }

  lemma SendsCached(st: Server, k: PeerKey, signKey: SigKey, env: Env)
    requires k in st.sessions
    requires var s := st.sessions[k]; s.nonceC.Some? && s.nonceS.Some? && s.dhSrv.Some?
    requires st.sessions[k].hello.Some? || env.signOk
    ensures var cached := WithReply(st.sessions[k], signKey);
            && cached.hello.Some?
            && SendServerHello(st, k, signKey, env)
               == Send(Put(st, k, cached), k, MServerHello, InOther, cached.hello.value, env.sendOk).st
  {
    hide Send, HelloReply;
  }

  lemma ReplyIsSendable(st: Server, k: PeerKey, dhSrv: Pub)
    requires k in st.sessions && st.sessions[k].hello.Some? && dhSrv.priv in st.issued
    requires var c := st.sessions[k].hello.value;
             c.ServerHello? && c.sig.Signature? && c.sig.text.HelloText? && c.sig.text.dhSrv == dhSrv
    ensures Sendable(st, k, MServerHello, InOther, st.sessions[k].hello.value)
  {
  }

  function WithReply(s: Session, signKey: SigKey): Session
    requires s.nonceC.Some? && s.nonceS.Some? && s.dhSrv.Some?
  {
    if s.hello.Some? then s else s.(hello := Some(HelloReply(signKey, s)))
  }

  lemma CachedReply(cfg: Config, s: Session, signKey: SigKey)
    requires s.nonceC.Some? && s.nonceS.Some? && s.dhSrv.Some?
    requires StageOk(s) && HelloCacheOk(cfg, s) && cfg.signKey == Some(signKey) && !s.stage.NoHandshake?
    ensures var t := WithReply(s, signKey);
            && QuietChange(s, t) && HelloCacheOk(cfg, t) && t.replay.Valid()
            && t.hello == Some(HelloReply(signKey, s))
            && t.hello.value.ServerHello? && t.hello.value.sig.Signature?
            && t.hello.value.sig.text == HelloText(s.nonceC.value, s.nonceS.value, s.dhSrv.value)
  {
  }

  lemma HelloKeeps(st: Server, k: PeerKey, p: Clear, env: Env)
    requires Inv(st) && k in st.sessions && EnvFresh(st, env)
    ensures Inv(HandleAuthHello(st, k, p, env))
  {
    hide Inv, StageOk, SendServerHello, Allow, HelloCacheOk, Restarted;
    var s := st.sessions[k];
    InvParts(st);
    StageOf(st, k);
    if !p.Hello? || st.cfg.signKey.None? || s.stage.Authed? || s.authenticated {
    } else if s.nonceC == Some(p.nonceC) && s.dhPriv.Some? && s.nonceS.Some? && s.dhSrv.Some? {
      PrivateKeyHeld(st, k);
      SendServerHelloKeeps(st, k, st.cfg.signKey.value, env);
    } else if (s.stage.KeysReady? || s.authenticated || s.encReady || s.handshaked)
              && s.nonceC.Some? && s.nonceC.value != p.nonceC {
    } else {
      var rl := Allow(st.hsRl, k.ip, env.now);
      var charged := st.(hsRl := rl.table);
      ChargeKeeps(st, rl.table);
      if rl.granted {
        var restarted := Restarted(s, p.nonceC, env.nonceS);
        RestartKeeps(charged, k, p.nonceC, env);
        if env.ephemeral.Some? {
          var e := env.ephemeral.value;
          var keyed := Put(charged, k, restarted.(dhPriv := Some(e), dhSrv := Some(Pub(e)))).(issued := st.issued + {e});
          RestartShape(s, p.nonceC, env.nonceS);
          SendServerHelloKeeps(keyed, k, st.cfg.signKey.value, env);
        }
      }
    }
  }

  lemma PrivateKeyHeld(st: Server, k: PeerKey)
    requires Inv(st) && k in st.sessions && st.sessions[k].dhPriv.Some?
    ensures var s := st.sessions[k];
            s.stage.HelloSent? && s.dhSrv.Some? && s.dhSrv.value.priv in st.issued && !s.ipAssigned && !s.handshaked
  {
    StageOf(st, k);
  }

  lemma ChargeKeeps(st: Server, t: Table)
    requires Inv(st)
    ensures Inv(st.(hsRl := t))
  {
    var u := st.(hsRl := t);
    assert Pending(u) == Pending(st);
    assert forall ip :: FromIp(u, ip) == FromIp(st, ip);
    HistoryFrame(st, u);
  }

  lemma RestartShape(s: Session, nonceC: Nonce, nonceS: Nonce)
    ensures var t := Restarted(s, nonceC, nonceS);
            && t.stage.HelloSent? && t.nonceC.Some? && t.nonceS.Some?
            && !t.handshaked && !t.encReady && t.dhPriv.None? && t.hello.None?
            && t.ipAssigned == s.ipAssigned && t.vip == s.vip
  {
  }

  lemma RestartStage(cfg: Config, s: Session, nonceC: Nonce, nonceS: Nonce, e: Priv)
    requires StageOk(s) && !s.stage.Authed?
    ensures var t := Restarted(s, nonceC, nonceS);
            && StageOk(t) && HelloCacheOk(cfg, t)
            && StageOk(t.(dhPriv := Some(e), dhSrv := Some(Pub(e))))
            && HelloCacheOk(cfg, t.(dhPriv := Some(e), dhSrv := Some(Pub(e))))
  {
  }

  lemma RestartKeeps(st: Server, k: PeerKey, nonceC: Nonce, env: Env)
    requires Inv(st) && k in st.sessions && EnvFresh(st, env)
    requires !st.sessions[k].stage.Authed?
    ensures var t := Restarted(st.sessions[k], nonceC, env.nonceS);
            match env.ephemeral
            case None => Inv(Put(st, k, t))
            case Some(e) => Inv(Put(st, k, t.(dhPriv := Some(e), dhSrv := Some(Pub(e)))).(issued := st.issued + {e}))
  {
    var s := st.sessions[k];
    var t := Restarted(s, nonceC, env.nonceS);
    InvParts(st);
    StageOf(st, k);
    assert !s.handshaked && !s.ipAssigned;
    RestartShape(s, nonceC, env.nonceS);
    RestartStage(st.cfg, s, nonceC, env.nonceS, env.ephemeral.GetOr(Priv(0)));
    hide StageOk, HelloCacheOk, StagesOk, VipOk, CapsOk, EphemeralsOk, HistoryOk, Restarted;
    match env.ephemeral
    case None =>
      PutStages(st, k, t);
      PutVip(st, k, t);
      PutCaps(st, k, t);
      PutEphemerals(st, k, t);
      PutHistory(st, k, t);
    case Some(e) =>
      var u := t.(dhPriv := Some(e), dhSrv := Some(Pub(e)));
      PutStages(st, k, u);
      PutVip(st, k, u);
      PutCaps(st, k, u);
      PutHistory(st, k, u);
      IssueKeeps(Put(st, k, u), e);
      NewEphemeral(st, k, u, e);
  }

  lemma IssueKeeps(st: Server, e: Priv)
    requires StagesOk(st) && VipOk(st) && CapsOk(st) && HistoryOk(st)
    ensures var u := st.(issued := st.issued + {e}); StagesOk(u) && VipOk(u) && CapsOk(u) && HistoryOk(u)
  {
    var u := st.(issued := st.issued + {e});
    assert Pending(u) == Pending(st);
    assert forall ip :: FromIp(u, ip) == FromIp(st, ip);
    HistoryFrame(st, u);
  }

  lemma NewEphemeral(st: Server, k: PeerKey, t: Session, e: Priv)
    requires EphemeralsOk(st) && k in st.sessions && e !in st.issued
    requires t.dhPriv == Some(e) && !t.encReady
    ensures EphemeralsOk(Put(st, k, t).(issued := st.issued + {e}))
  {
  }

  // ---- auth_client_hello -------------------------------------------------------------

  lemma ClientHelloKeeps(st: Server, k: PeerKey, p: Clear, env: Env)
    requires Inv(st) && k in st.sessions
    ensures Inv(HandleClientHello(st, k, p, env))
  {
    var s := st.sessions[k];
    InvParts(st);
    StageOf(st, k);
    if p.ClientHello? && s.stage.HelloSent? && s.dhPriv.Some? && s.nonceC.Some? && s.nonceS.Some? {
      var heard := s.(dhCli := Some(p.dhCli));
      var done := WithKeys(s, p.dhCli);
      DerivedStage(st.cfg, s, p.dhCli);
      var t := if env.dhOk then done else heard;
      hide StageOk, HelloCacheOk, StagesOk, VipOk, CapsOk, EphemeralsOk, HistoryOk;
      PutStages(st, k, t);
      PutVip(st, k, t);
      PutCaps(st, k, t);
      PutHistory(st, k, t);
      if env.dhOk {
        SpendKeeps(Put(st, k, done), s.dhPriv.value);
        Spend(st, k, done);
      } else {
        PutEphemerals(st, k, heard);
      }
    }
  }

  function WithKeys(s: Session, dhCli: Pub): Session
    requires s.dhPriv.Some? && s.nonceC.Some? && s.nonceS.Some?
  {
    s.(dhCli := Some(dhCli),
       keyC2S := Some(SessionKey(Tx, Dh(s.dhPriv.value, dhCli), s.nonceC.value, s.nonceS.value)),
       keyS2C := Some(SessionKey(Rx, Dh(s.dhPriv.value, dhCli), s.nonceC.value, s.nonceS.value)),
       dhPriv := None, stage := KeysReady, encReady := true)
  }

  lemma DerivedStage(cfg: Config, s: Session, dhCli: Pub)
    requires StageOk(s) && HelloCacheOk(cfg, s) && s.stage.HelloSent?
    requires s.dhPriv.Some? && s.nonceC.Some? && s.nonceS.Some?
    ensures !s.handshaked && !s.encReady && s.dhSrv == Some(Pub(s.dhPriv.value))
    ensures var heard := s.(dhCli := Some(dhCli)); StageOk(heard) && HelloCacheOk(cfg, heard)
    ensures StageOk(WithKeys(s, dhCli)) && HelloCacheOk(cfg, WithKeys(s, dhCli))
  {
    assert Dh(s.dhPriv.value, dhCli) == Shared({dhCli, s.dhSrv.value});
  }

  lemma SpendKeeps(st: Server, e: Priv)
    requires StagesOk(st) && VipOk(st) && CapsOk(st) && HistoryOk(st)
    ensures var u := st.(spent := st.spent + [e]); StagesOk(u) && VipOk(u) && CapsOk(u) && HistoryOk(u)
  {
    var u := st.(spent := st.spent + [e]);
    assert Pending(u) == Pending(st);
    assert forall ip :: FromIp(u, ip) == FromIp(st, ip);
    HistoryFrame(st, u);
  }

  lemma Spend(st: Server, k: PeerKey, t: Session)
    requires EphemeralsOk(st) && k in st.sessions && st.sessions[k].dhPriv.Some?
    requires t.dhPriv.None? && t.dhSrv == Some(Pub(st.sessions[k].dhPriv.value))
    ensures EphemeralsOk(Put(st, k, t).(spent := st.spent + [st.sessions[k].dhPriv.value]))
  {
    var e := st.sessions[k].dhPriv.value;
    var u := Put(st, k, t).(spent := st.spent + [e]);
    assert forall x :: x in u.spent <==> x in st.spent || x == e;
  }

  // ---- identity --------------------------------------------------------------------------

  lemma DenyKeeps(st: Server, k: PeerKey, reason: nat, sendOk: bool)
    requires Inv(st) && k in st.sessions && !st.sessions[k].stage.Authed?
    ensures Inv(Deny(st, k, reason, sendOk))
  {
    hide Inv, Send, StageOk, HelloCacheOk;
    var sent := SendSealed(st, k, MIdentityDeny, InIdentityDeny(reason), sendOk);
    SendKeeps(st, k, MIdentityDeny, InIdentityDeny(reason), Junk, sendOk);
    if k in sent.sessions {
      SendQuiet(st, k, MIdentityDeny, InIdentityDeny(reason), Junk, sendOk, k);
      var t := sent.sessions[k];
      InvParts(sent);
      StageOf(sent, k);
      NotAuthedFlags(t);
      assert t.(authenticated := false, handshaked := false) == t;
      assert sent.sessions[k := t] == sent.sessions;
      assert Put(sent, k, t) == sent;
    }
  }

  lemma NotAuthedFlags(t: Session)
    requires StageOk(t) && !t.stage.Authed?
    ensures !t.authenticated && !t.handshaked && !t.ipAssigned
  {
  }

  lemma RegistryKeeps(st: Server, m: IdentityMsg, env: Env)
    requires Inv(st) && m.text.IdentityText?
    ensures var u := ConsultRegistry(st, m, env).st;
            && Inv(u) && u.sessions == st.sessions && u.bindings == st.bindings
            && u == st.(tokens := u.tokens, clients := u.clients)
  {
    var u := ConsultRegistry(st, m, env).st;
    RegistryFrame(st, u);
  }

  lemma RegistryFrame(st: Server, u: Server)
    requires Inv(st) && u == st.(tokens := u.tokens, clients := u.clients)
    ensures Inv(u)
  {
    assert Pending(u) == Pending(st);
    assert forall ip :: FromIp(u, ip) == FromIp(st, ip);
    HistoryFrame(st, u);
  }

  /** An allocated address is a free host address; nothing else moves. */
  lemma AllocateGives(st: Server, id: string, draws: seq<nat>)
    ensures var g := AllocateVip(st, id, draws);
            && g.st == st.(pool := g.st.pool, lastVip := g.st.lastVip)
            && (g.ip == 0 ==> g.st.pool == st.pool)
            && (g.ip != 0 ==> st.pool.Free(g.ip) && g.st.pool == st.pool.Take(g.ip))
  {
    AllocatedIsFree(st.pool, draws);
  }

  /** Give a free address to a session that has none, and open the gate. */
  lemma AdmittingKeeps(st: Server, k: PeerKey, ip: nat, pool: Pool, leases: map<string, nat>, env: Env)
    requires Inv(st) && k in st.sessions && st.sessions[k].stage.KeysReady? && st.sessions[k].cliPub.Some?
    requires st.pool.Free(ip) && pool == st.pool.Take(ip)
    ensures Inv(Admitting(Assign(st.(pool := pool, lastVip := leases), k, ip), k, env))
  {
    var t := WithAddress(st.sessions[k], ip);
    var b := BindingOf(k, t, st.cfg.prefix);
    var gate := Opened(st, k, t, ip, pool, leases, b);
    GateKeeps(st, k, ip, pool, leases);
    GateIsOpened(st, k, ip, pool, leases);
    hide Inv, Send, Announced, OpenGate, Assign, Opened, WithAddress, BindingOf, Sendable;
    GateIsSendable(st, k, ip, pool, leases);
    SendKeeps(gate, k, MIdentityOk, InIdentityOk(ip, st.cfg.prefix), Junk, env.sendOk);
  }

  lemma GateIsSendable(st: Server, k: PeerKey, ip: nat, pool: Pool, leases: map<string, nat>)
    requires k in st.sessions
    ensures var t := WithAddress(st.sessions[k], ip);
            var gate := Opened(st, k, t, ip, pool, leases, BindingOf(k, t, st.cfg.prefix));
            k in gate.sessions && Sendable(gate, k, MIdentityOk, InIdentityOk(ip, st.cfg.prefix), Junk)
  {
    var t := WithAddress(st.sessions[k], ip);
    var b := BindingOf(k, t, st.cfg.prefix);
    var gate := Opened(st, k, t, ip, pool, leases, b);
    BindingAnnounces(gate.bindings, b);
  }

  lemma GateIsOpened(st: Server, k: PeerKey, ip: nat, pool: Pool, leases: map<string, nat>)
    requires k in st.sessions
    ensures var t := WithAddress(st.sessions[k], ip);
            var placed := Assign(st.(pool := pool, lastVip := leases), k, ip);
            && k in placed.sessions && placed.sessions[k].vip == ip && placed.cfg == st.cfg
            && OpenGate(placed, k) == Opened(st, k, t, ip, pool, leases, BindingOf(k, t, st.cfg.prefix))
  {
  }

  lemma BindingAnnounces(bindings: set<Binding>, b: Binding)
    requires b in bindings
    ensures b.keyS2C.Some? ==> Announced(bindings, b.keyS2C.value, b.vip, b.prefix)
  {
  }

  function WithAddress(s: Session, ip: nat): Session
  {
    s.(vip := ip, ipAssigned := true, authenticated := true, handshaked := true, stage := Authed)
  }

  lemma AuthedStage(cfg: Config, s: Session, ip: nat)
    requires StageOk(s) && HelloCacheOk(cfg, s) && s.stage.KeysReady? && s.cliPub.Some?
    ensures StageOk(WithAddress(s, ip)) && HelloCacheOk(cfg, WithAddress(s, ip))
    ensures s.encReady && s.dhPriv.None? && !s.ipAssigned
  {
  }

  lemma GateKeeps(st: Server, k: PeerKey, ip: nat, pool: Pool, leases: map<string, nat>)
    requires Inv(st) && k in st.sessions && st.sessions[k].stage.KeysReady? && st.sessions[k].cliPub.Some?
    requires st.pool.Free(ip) && pool == st.pool.Take(ip)
    ensures var t := WithAddress(st.sessions[k], ip);
            Inv(Opened(st, k, t, ip, pool, leases, BindingOf(k, t, st.cfg.prefix)))
  {
    var t := WithAddress(st.sessions[k], ip);
    var b := BindingOf(k, t, st.cfg.prefix);
    InvParts(st);
    StageOf(st, k);
    AuthedStage(st.cfg, st.sessions[k], ip);
    hide StageOk, HelloCacheOk, StagesOk, VipOk, CapsOk, EphemeralsOk, HistoryOk, Opened, BindingOf;
    OpenStages(st, k, t, ip, pool, leases, b);
    OpenVip(st, k, t, ip, pool, leases, b);
    OpenCaps(st, k, t, ip, pool, leases, b);
    OpenEphemerals(st, k, t, ip, pool, leases, b);
    OpenHistory(st, k, t, ip, pool, leases, b);
    InvFrom(Opened(st, k, t, ip, pool, leases, b));
  }

  function Opened(st: Server, k: PeerKey, t: Session, ip: nat, pool: Pool, leases: map<string, nat>, b: Binding): Server
  {
    Put(st, k, t).(vipToKey := st.vipToKey[ip := k], pool := pool, lastVip := leases, bindings := st.bindings + {b})
  }

  lemma OpenStages(st: Server, k: PeerKey, t: Session, ip: nat, pool: Pool, leases: map<string, nat>, b: Binding)
    requires StagesOk(st) && StageOk(t) && HelloCacheOk(st.cfg, t)
    ensures StagesOk(Opened(st, k, t, ip, pool, leases, b))
  {
    hide StageOk, HelloCacheOk;
  }

  lemma OpenVip(st: Server, k: PeerKey, t: Session, ip: nat, pool: Pool, leases: map<string, nat>, b: Binding)
    requires VipOk(st) && k in st.sessions && !st.sessions[k].ipAssigned
    requires st.pool.Free(ip) && pool == st.pool.Take(ip) && t.ipAssigned && t.vip == ip
    ensures VipOk(Opened(st, k, t, ip, pool, leases, b))
  {
  }

  lemma OpenCaps(st: Server, k: PeerKey, t: Session, ip: nat, pool: Pool, leases: map<string, nat>, b: Binding)
    requires CapsOk(st) && k in st.sessions && t.handshaked
    ensures CapsOk(Opened(st, k, t, ip, pool, leases, b))
  {
    PutCaps(st, k, t);
    var u, v := Put(st, k, t), Opened(st, k, t, ip, pool, leases, b);
    assert Pending(v) == Pending(u);
    assert forall ip :: FromIp(v, ip) == FromIp(u, ip);
  }

  lemma OpenEphemerals(st: Server, k: PeerKey, t: Session, ip: nat, pool: Pool, leases: map<string, nat>, b: Binding)
    requires EphemeralsOk(st) && k in st.sessions && t.dhPriv.None?
    requires st.sessions[k].encReady && t.dhSrv == st.sessions[k].dhSrv
    ensures EphemeralsOk(Opened(st, k, t, ip, pool, leases, b))
  {
    PutEphemerals(st, k, t);
  }

  lemma OpenHistory(st: Server, k: PeerKey, t: Session, ip: nat, pool: Pool, leases: map<string, nat>, b: Binding)
    requires HistoryOk(st) && EphemeralsOk(st) && StageOk(t) && t.stage.Authed?
    requires k in st.sessions && st.sessions[k].encReady && t.dhSrv == st.sessions[k].dhSrv
    requires st.pool.Free(ip) && pool == st.pool.Take(ip) && t.vip == ip && b == BindingOf(k, t, st.cfg.prefix)
    ensures HistoryOk(Opened(st, k, t, ip, pool, leases, b))
  {
    var u := Opened(st, k, t, ip, pool, leases, b);
    HistoryFrame(st, u);
    assert BindingSound(u, b);
  }

  lemma LogInKeeps(st: Server, k: PeerKey, id: string, cliPub: SigKey, env: Env)
    requires Inv(st) && k in st.sessions && st.sessions[k].stage.KeysReady?
    ensures Inv(LogIn(st, k, id, cliPub, env))
  {
    var t := st.sessions[k].(clientId := id, cliPub := Some(cliPub));
    var named := Put(st, k, t);
    var vs := Victims(named, k);
    NamedKeeps(st, k, id, cliPub);
    hide Inv, Admitting, AllocateVip, Deny, Assign;
    ReleaseAllKeeps(named, vs);
    var alone := ReleaseAll(named, vs);
    assert k in alone.sessions && alone.sessions[k] == t;
    NotYetAssigned(alone, k);
    AllocateGives(alone, id, env.draws);
    var g := AllocateVip(alone, id, env.draws);
    if g.ip == 0 {
      LeaseKeeps(alone, g.st.lastVip);
      DenyKeeps(g.st, k, 0, env.sendOk);
    } else {
      AdmittingKeeps(alone, k, g.ip, g.st.pool, g.st.lastVip, env);
    }
  }

  lemma NotYetAssigned(st: Server, k: PeerKey)
    requires Inv(st) && k in st.sessions && !st.sessions[k].stage.Authed?
    ensures !st.sessions[k].ipAssigned && !st.sessions[k].authenticated
  {
    StageOf(st, k);
  }

  lemma LeaseKeeps(st: Server, leases: map<string, nat>)
    requires Inv(st)
    ensures Inv(st.(lastVip := leases))
  {
    var u := st.(lastVip := leases);
    assert Pending(u) == Pending(st);
    assert forall ip :: FromIp(u, ip) == FromIp(st, ip);
    HistoryFrame(st, u);
  }

  lemma NamedKeeps(st: Server, k: PeerKey, id: string, cliPub: SigKey)
    requires Inv(st) && k in st.sessions && !st.sessions[k].stage.Authed?
    ensures Inv(Put(st, k, st.sessions[k].(clientId := id, cliPub := Some(cliPub))))
  {
    var s := st.sessions[k];
    var t := s.(clientId := id, cliPub := Some(cliPub));
    InvParts(st);
    StageOf(st, k);
    assert StageOk(t) && HelloCacheOk(st.cfg, t);
    hide StageOk, HelloCacheOk, StagesOk, VipOk, CapsOk, EphemeralsOk, HistoryOk;
    PutStages(st, k, t);
    PutVip(st, k, t);
    PutCaps(st, k, t);
    PutEphemerals(st, k, t);
    PutHistory(st, k, t);
  }

  lemma IdentityKeeps(st: Server, k: PeerKey, msg: Option<IdentityMsg>, env: Env)
    requires Inv(st) && k in st.sessions && st.sessions[k].encReady
    ensures Inv(HandleIdentity(st, k, msg, env))
  {
    var s := st.sessions[k];
    KeysOrAuthed(st, k);
    hide Inv, Send, Deny, LogIn, IdentityHolds, Sendable;
    if s.authenticated {
      ResendIsSendable(st, k);
      SendKeeps(st, k, MIdentityOk, InIdentityOk(s.vip, st.cfg.prefix), Junk, env.sendOk);
    } else if msg.None? || !IdentityHolds(s, msg.value) {
      DenyKeeps(st, k, 0, env.sendOk);
    } else {
      HoldsIsIdentity(s, msg.value);
      RegistryKeeps(st, msg.value, env);
      match ConsultRegistry(st, msg.value, env)
      case Rejected(u, reason) => DenyKeeps(u, k, reason, env.sendOk);
      case Registered(u) =>
        DenyKeeps(u, k, 2, env.sendOk);
        LogInKeeps(u, k, msg.value.text.clientId, msg.value.text.cliPub, env);
    }
  }

  lemma HoldsIsIdentity(s: Session, m: IdentityMsg)
    requires IdentityHolds(s, m)
    ensures m.text.IdentityText?
  {
  }

  lemma KeysOrAuthed(st: Server, k: PeerKey)
    requires Inv(st) && k in st.sessions && st.sessions[k].encReady
    ensures if st.sessions[k].authenticated then st.sessions[k].stage.Authed? else st.sessions[k].stage.KeysReady?
  {
    StageOf(st, k);
  }

  lemma ResendIsSendable(st: Server, k: PeerKey)
    requires Inv(st) && k in st.sessions && st.sessions[k].stage.Authed?
    ensures Sendable(st, k, MIdentityOk, InIdentityOk(st.sessions[k].vip, st.cfg.prefix), Junk)
  {
    assert BindingOf(k, st.sessions[k], st.cfg.prefix) in st.bindings;
  }

  // ---- any frame ---------------------------------------------------------------------------

  lemma DataKeeps(st: Server, k: PeerKey, src: Option<nat>, env: Env)
    requires Inv(st) && k in st.sessions
    ensures Inv(HandleData(st, k, src, env))
  {
    hide Inv, Release;
    ReleaseKeeps(st, k);
    if st.sessions[k].authenticated {
      AppendUplink(st, k);
    }
  }

  lemma AppendUplink(st: Server, k: PeerKey)
    requires Inv(st) && k in st.sessions && st.sessions[k].authenticated
    ensures Inv(st.(uplinks := st.uplinks + [Uplink(k, st.sessions[k].vip)]))
  {
    var u := st.(uplinks := st.uplinks + [Uplink(k, st.sessions[k].vip)]);
    InvParts(st);
    StageOf(st, k);
    UplinkHistory(st, k);
    UplinkRest(st, u);
    hide VipOk, CapsOk, StagesOk, EphemeralsOk, HistoryOk;
    InvFrom(u);
  }

  lemma UplinkRest(st: Server, u: Server)
    requires CapsOk(st) && VipOk(st) && StagesOk(st) && EphemeralsOk(st)
    requires u == st.(uplinks := u.uplinks)
    ensures CapsOk(u) && VipOk(u) && StagesOk(u) && EphemeralsOk(u)
  {
    assert Pending(u) == Pending(st);
    assert forall ip :: FromIp(u, ip) == FromIp(st, ip);
  }

  lemma UplinkHistory(st: Server, k: PeerKey)
    requires HistoryOk(st) && k in st.sessions && st.sessions[k].stage.Authed?
    ensures HistoryOk(st.(uplinks := st.uplinks + [Uplink(k, st.sessions[k].vip)]))
  {
    var u := st.(uplinks := st.uplinks + [Uplink(k, st.sessions[k].vip)]);
    var b := BindingOf(k, st.sessions[k], st.cfg.prefix);
    assert b in st.bindings && b.key == k && b.vip == st.sessions[k].vip;
    forall i | 0 <= i < |u.uplinks|
      ensures UplinkSound(u, u.uplinks[i])
    {
      assert i < |st.uplinks| ==> UplinkSound(st, st.uplinks[i]);
    }
    forall i | 0 <= i < |u.out|
      ensures FrameSound(u, u.out[i].frame)
    {
      assert FrameSound(st, st.out[i].frame);
    }
    forall b | b in u.bindings
      ensures BindingSound(u, b)
    {
      assert BindingSound(st, b);
    }
  }

  lemma InnerKeeps(st: Server, k: PeerKey, inner: Inner, env: Env)
    requires Inv(st) && k in st.sessions && st.sessions[k].encReady
    ensures Inv(HandleInner(st, k, inner, env))
  {
    hide Inv, Send, HandleData, HandleIdentity, Release;
    match inner
    case InData(src) => DataKeeps(st, k, src, env);
    case InHeart => SendKeeps(st, k, MHeartResponse, InHeartResponse, Junk, env.sendOk);
    case InIdentity(msg) => IdentityKeeps(st, k, msg, env);
    case InDisconnect =>
      DropRequestKeeps(st, k);
      ReleaseKeeps(st, k);
    case _ =>
  }

  lemma DropRequestKeeps(st: Server, k: PeerKey)
    requires Inv(st) && k in st.sessions
    ensures Inv(Put(st, k, st.sessions[k].(tcpDrop := true)))
  {
    StageOf(st, k);
    PutQuiet(st, k, st.sessions[k].(tcpDrop := true));
  }

  lemma OfferKeeps(st: Server, k: PeerKey, seqNo: nat)
    requires Inv(st) && k in st.sessions
    ensures Inv(Put(st, k, st.sessions[k].(replay := st.sessions[k].replay.Offer(seqNo))))
  {
    StageOf(st, k);
    PutQuiet(st, k, st.sessions[k].(replay := st.sessions[k].replay.Offer(seqNo)));
  }

  lemma FramedKeeps(st: Server, k: PeerKey, f: Frame, env: Env)
    requires Inv(st) && k in st.sessions && EnvFresh(st, env)
    ensures Inv(HandleFramed(st, k, f, env))
  {
    hide Inv, HandleInner, HandleAuthHello, HandleClientHello, Unseal;
    if SealedType(f.hdr.typ) {
      var s := st.sessions[k];
      if s.encReady && Unseal(s.keyC2S, f).Some? {
        OfferKeeps(st, k, f.hdr.seqNo);
        InnerKeeps(Put(st, k, s.(replay := s.replay.Offer(f.hdr.seqNo))), k, Unseal(s.keyC2S, f).value, env);
      }
    } else if f.payload.Open? {
      HelloKeeps(st, k, f.payload.clear, env);
      ClientHelloKeeps(st, k, f.payload.clear, env);
    }
  }
}
