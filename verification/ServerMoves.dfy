/** What one handler call may do to the session it runs for, and to everything else:
    the six moves of the handshake. */
module ServerMoves {
  import opened Text
  import opened Replay
  import opened Protocol
  import opened VipPool
  import opened RateLimiters
  import opened ServerSpec
  import opened ServerInv
  import opened ServerSteps

  datatype Move = Quiet | Restart | Heard | Keyed | Named | Gated

  /** A session without its bookkeeping. */
  function Core(s: Session): Session
  {
    s.(seqNo := 0, replay := FRESH, tcpDrop := false, hello := None)
  }

  /** How a session's core changes in each move. */
  ghost predicate Moves(s: Session, t: Session, mv: Move, issued: set<Priv>)
  {
    match mv
    case Quiet => t == s
    case Restart =>
      && !s.stage.Authed? && t.stage.HelloSent? && !t.encReady && t.ipAssigned == s.ipAssigned
      && (t.dhPriv.Some? ==> t.dhPriv.value !in issued && t.dhSrv == Some(Pub(t.dhPriv.value)))
    case Heard => s.stage.HelloSent? && t == s.(dhCli := t.dhCli)
    case Keyed =>
      && s.stage.HelloSent? && s.dhPriv.Some? && s.nonceC.Some? && s.nonceS.Some? && t.dhCli.Some?
      && t == WithKeys(s, t.dhCli.value)
    case Named => s.stage.KeysReady? && t == s.(clientId := t.clientId, cliPub := t.cliPub)
    case Gated =>
      s.stage.KeysReady? && t == WithAddress(s.(clientId := t.clientId, cliPub := t.cliPub), t.vip)
  }

  /** The step from st to u made one move on session k, which would now be t, and
      left all other sessions alone, save that a login ends those of the same key. */
  ghost predicate Effect(st: Server, k: PeerKey, u: Server, mv: Move, t: Session)
    requires k in st.sessions
  {
    && u.cfg == st.cfg && u.issued == st.issued + Made(mv, t) && st.out <= u.out
    && t == Core(t) && Moves(Core(st.sessions[k]), t, mv, st.issued)
    && Others(st, k, u, mv, t)
    && (k in u.sessions ==> Core(u.sessions[k]) == t)
    && u.bindings == (if mv.Gated? then st.bindings + {BindingOf(k, t, st.cfg.prefix)} else st.bindings)
    && u.spent == (if mv.Keyed? then st.spent + [Spent(st.sessions[k])] else st.spent)
  }

  /** The ephemeral key a restart made, if it did. */
  function Made(mv: Move, t: Session): set<Priv>
  {
    if mv.Restart? && t.dhPriv.Some? then {t.dhPriv.value} else {}
  }

  function Spent(s: Session): Priv
  {
    s.dhPriv.GetOr(Priv(0))
  }

  ghost predicate Others(st: Server, k: PeerKey, u: Server, mv: Move, t: Session)
  {
    && (forall l :: l in u.sessions ==> l in st.sessions && (l != k ==> u.sessions[l] == st.sessions[l]))
    && (forall l :: l in st.sessions && l !in u.sessions && l != k ==> (mv.Named? || mv.Gated?) && st.sessions[l].cliPub == t.cliPub)
  }

  // ---- building effects -----------------------------------------------------------

  /** A quiet change of the session at hand. */
  lemma StaysQuiet(st: Server, k: PeerKey)
    requires k in st.sessions
    ensures Effect(st, k, st, Quiet, Core(st.sessions[k]))
  {
  }

  /** After a move, changes of bookkeeping and log alone do not matter. */
  lemma ThenQuiet(st: Server, k: PeerKey, u: Server, mv: Move, t: Session, v: Server)
    requires k in st.sessions && Effect(st, k, u, mv, t)
    requires v.cfg == u.cfg && u.issued == v.issued && u.out <= v.out && v.bindings == u.bindings && v.spent == u.spent
    requires forall l :: l in v.sessions ==> l in u.sessions && (l != k ==> v.sessions[l] == u.sessions[l])
    requires forall l :: l in u.sessions && l !in v.sessions ==> l == k
    requires k in v.sessions ==> Core(v.sessions[k]) == Core(u.sessions[k])
    ensures Effect(st, k, v, mv, t)
  {
    hide Moves, Core, BindingOf, Spent;
  }

  lemma ThenSend(st: Server, k: PeerKey, u: Server, mv: Move, t: Session,
                 typ: MsgType, inner: Inner, clear: Clear, sendOk: bool)
    requires k in st.sessions && Effect(st, k, u, mv, t) && k in u.sessions
    ensures Effect(st, k, Send(u, k, typ, inner, clear, sendOk).st, mv, t)
  {
    hide Effect, Send, Moves, Core, Renumbered, Numbered;
    var v := Send(u, k, typ, inner, clear, sendOk).st;
    SendFields(u, k, typ, inner, clear, sendOk);
    SendSessions(u, k, typ, inner, clear, sendOk);
    if k in v.sessions {
      SendQuiet(u, k, typ, inner, clear, sendOk, k);
      RenumberedCore(u.sessions[k], v.sessions[k]);
    }
    ThenQuiet(st, k, u, mv, t, v);
  }

  lemma SendSessions(st: Server, k: PeerKey, typ: MsgType, inner: Inner, clear: Clear, sendOk: bool)
    requires k in st.sessions
    ensures var u := Send(st, k, typ, inner, clear, sendOk).st;
            && (forall l :: l in u.sessions ==> l in st.sessions && (l != k ==> u.sessions[l] == st.sessions[l]))
            && (forall l :: l in st.sessions && l !in u.sessions ==> l == k)
  {
    hide Send, Release, Numbered, SentFrame;
    SendForms(st, k, typ, inner, clear, sendOk);
    ReleaseFields(Put(st, k, Numbered(st.sessions[k])), k);
  }

  lemma RenumberedCore(s: Session, t: Session)
    requires Renumbered(s, t)
    ensures Core(t) == Core(s)
  {
  }

  lemma ThenRelease(st: Server, k: PeerKey, u: Server, mv: Move, t: Session)
    requires k in st.sessions && Effect(st, k, u, mv, t)
    ensures Effect(st, k, Release(u, k), mv, t)
  {
    hide Effect, Core, Release;
    ReleaseFields(u, k);
    ThenQuiet(st, k, u, mv, t, Release(u, k));
  }

  lemma ThenPut(st: Server, k: PeerKey, u: Server, mv: Move, t: Session, s: Session)
    requires k in st.sessions && Effect(st, k, u, mv, t) && k in u.sessions && Core(s) == Core(u.sessions[k])
    ensures Effect(st, k, Put(u, k, s), mv, t)
  {
    hide Effect, Core;
    ThenQuiet(st, k, u, mv, t, Put(u, k, s));
  }

  /** Bookkeeping before the move does not matter either. */
  lemma QuietThen(st: Server, k: PeerKey, s: Session, u: Server, mv: Move, t: Session)
    requires k in st.sessions && Core(s) == Core(st.sessions[k])
    requires Effect(Put(st, k, s), k, u, mv, t)
    ensures Effect(st, k, u, mv, t)
  {
    var v := Put(st, k, s);
    CoreSpent(st.sessions[k], s);
    hide Moves, Core, BindingOf, Spent;
    assert Others(st, k, u, mv, t) by {
      assert forall l :: l in v.sessions <==> l in st.sessions;
      assert forall l :: l in st.sessions && l != k ==> v.sessions[l] == st.sessions[l];
    }
  }

  lemma CoreSpent(s: Session, t: Session)
    requires Core(s) == Core(t)
    ensures Spent(s) == Spent(t)
  {
    assert Core(s).dhPriv == Core(t).dhPriv;
  }

  /** One changed session, history extended to match. */
  lemma MoveOne(st: Server, k: PeerKey, s: Session, mv: Move, u: Server)
    requires k in st.sessions && Moves(Core(st.sessions[k]), Core(s), mv, st.issued)
    requires u.cfg == st.cfg && u.issued == st.issued + Made(mv, s) && st.out <= u.out && u.sessions == st.sessions[k := s]
    requires u.bindings == (if mv.Gated? then st.bindings + {BindingOf(k, s, st.cfg.prefix)} else st.bindings)
    requires u.spent == (if mv.Keyed? then st.spent + [Spent(st.sessions[k])] else st.spent)
    ensures Effect(st, k, u, mv, Core(s))
  {
    CoreBinding(k, s, st.cfg.prefix);
    hide Moves, BindingOf, Spent;
  }

  lemma CoreBinding(k: PeerKey, s: Session, prefix: nat)
    ensures BindingOf(k, Core(s), prefix) == BindingOf(k, s, prefix) && Core(Core(s)) == Core(s)
    ensures forall mv :: Made(mv, Core(s)) == Made(mv, s)
  {
  }

  // ---- the handlers ------------------------------------------------------------------

  lemma ServerHelloEffect(st: Server, k: PeerKey, u: Server, mv: Move, t: Session, signKey: SigKey, env: Env)
    requires k in st.sessions && Effect(st, k, u, mv, t) && k in u.sessions
    requires var s := u.sessions[k]; s.nonceC.Some? && s.nonceS.Some? && s.dhSrv.Some?
    ensures Effect(st, k, SendServerHello(u, k, signKey, env), mv, t)
  {
    var s := u.sessions[k];
    hide Effect, Send, HelloReply;
    if s.hello.Some? || env.signOk {
      var cached := WithReply(s, signKey);
      SendsCached(u, k, signKey, env);
      WithReplyCore(s, signKey);
      ThenPut(st, k, u, mv, t, cached);
      ThenSend(st, k, Put(u, k, cached), mv, t, MServerHello, InOther, cached.hello.value, env.sendOk);
    }
  }

  lemma WithReplyCore(s: Session, signKey: SigKey)
    requires s.nonceC.Some? && s.nonceS.Some? && s.dhSrv.Some?
    ensures Core(WithReply(s, signKey)) == Core(s)
  {
  }

  lemma RestartMove(st: Server, k: PeerKey, nonceC: Nonce, env: Env)
    requires k in st.sessions && !st.sessions[k].stage.Authed? && EnvFresh(st, env)
    requires st.sessions[k].dhPriv.Some? ==> st.sessions[k].stage.HelloSent?
    ensures var t := Restarted(st.sessions[k], nonceC, env.nonceS);
            && Moves(Core(st.sessions[k]), Core(t), Restart, st.issued)
            && (env.ephemeral.Some? ==>
                  Moves(Core(st.sessions[k]),
                        Core(t.(dhPriv := env.ephemeral, dhSrv := Some(Pub(env.ephemeral.value)))), Restart, st.issued))
  {
  }

  lemma HelloEffect(st: Server, k: PeerKey, p: Clear, env: Env) returns (mv: Move, t: Session)
    requires Inv(st) && k in st.sessions && EnvFresh(st, env)
    ensures Effect(st, k, HandleAuthHello(st, k, p, env), mv, t)
    ensures mv.Quiet? || (mv.Restart? && t.dhPriv == env.ephemeral)
    ensures st.sessions[k].stage.Authed? ==> HandleAuthHello(st, k, p, env) == st
  {
    var s := st.sessions[k];
    StaysQuiet(st, k);
    PrivOnlyInHello(st, k);
    hide Inv, Effect, SendServerHello, Allow, Restarted, Core;
    mv, t := Quiet, Core(s);
    if !p.Hello? || st.cfg.signKey.None? || s.stage.Authed? || s.authenticated {
    } else if s.nonceC == Some(p.nonceC) && s.dhPriv.Some? && s.nonceS.Some? && s.dhSrv.Some? {
      ServerHelloEffect(st, k, st, mv, t, st.cfg.signKey.value, env);
    } else if (s.stage.KeysReady? || s.authenticated || s.encReady || s.handshaked)
              && s.nonceC.Some? && s.nonceC.value != p.nonceC {
    } else {
      var rl := Allow(st.hsRl, k.ip, env.now);
      if rl.granted {
        mv, t := RestartEffect(st, k, p.nonceC, st.cfg.signKey.value, rl.table, env);
      } else {
        ThenTable(st, k, rl.table);
      }
    }
  }

  lemma ThenTable(st: Server, k: PeerKey, table: Table)
    requires k in st.sessions
    ensures Effect(st, k, st.(hsRl := table), Quiet, Core(st.sessions[k]))
  {
    StaysQuiet(st, k);
    ThenQuiet(st, k, st, Quiet, Core(st.sessions[k]), st.(hsRl := table));
  }

  lemma RestartEffect(st: Server, k: PeerKey, nonceC: Nonce, signKey: SigKey, table: Table, env: Env)
    returns (mv: Move, t: Session)
    requires k in st.sessions && !st.sessions[k].stage.Authed? && EnvFresh(st, env)
    requires st.sessions[k].dhPriv.Some? ==> st.sessions[k].stage.HelloSent?
    ensures var charged := st.(hsRl := table);
            var restarted := Restarted(st.sessions[k], nonceC, env.nonceS);
            match env.ephemeral
            case None => Effect(st, k, Put(charged, k, restarted), mv, t)
            case Some(e) =>
              var keyed := Put(charged, k, restarted.(dhPriv := Some(e), dhSrv := Some(Pub(e)))).(issued := st.issued + {e});
              && keyed.sessions[k].nonceC.Some? && keyed.sessions[k].nonceS.Some?
              && Effect(st, k, SendServerHello(keyed, k, signKey, env), mv, t)
    ensures mv.Restart? && t.dhPriv == env.ephemeral
  {
    var restarted := Restarted(st.sessions[k], nonceC, env.nonceS);
    RestartMove(st, k, nonceC, env);
    RestartShape(st.sessions[k], nonceC, env.nonceS);
    hide Effect, SendServerHello, Restarted, Core, Moves;
    var charged := st.(hsRl := table);
    mv := Restart;
    match env.ephemeral
    case None =>
      t := Core(restarted);
      MoveOne(st, k, restarted, mv, Put(charged, k, restarted));
    case Some(e) =>
      var keyed := restarted.(dhPriv := Some(e), dhSrv := Some(Pub(e)));
      var u := Put(charged, k, keyed).(issued := st.issued + {e});
      t := Core(keyed);
      MoveOne(st, k, keyed, mv, u);
      ServerHelloEffect(st, k, u, mv, t, signKey, env);
  }

  lemma PrivOnlyInHello(st: Server, k: PeerKey)
    requires Inv(st) && k in st.sessions
    ensures st.sessions[k].dhPriv.Some? ==> st.sessions[k].stage.HelloSent?
  {
    StageOf(st, k);
  }

  lemma ClientHelloEffect(st: Server, k: PeerKey, p: Clear, env: Env) returns (mv: Move, t: Session)
    requires k in st.sessions
    ensures Effect(st, k, HandleClientHello(st, k, p, env), mv, t)
    ensures mv.Quiet? || mv.Heard? || mv.Keyed?
  {
    var s := st.sessions[k];
    StaysQuiet(st, k);
    mv, t := Quiet, Core(s);
    if p.ClientHello? && s.stage.HelloSent? && s.dhPriv.Some? && s.nonceC.Some? && s.nonceS.Some? {
      KeyMoves(s, p.dhCli, st.issued);
      hide Moves, Effect, Core;
      if env.dhOk {
        mv, t := Keyed, Core(WithKeys(s, p.dhCli));
        MoveOne(st, k, WithKeys(s, p.dhCli), mv, HandleClientHello(st, k, p, env));
      } else {
        mv, t := Heard, Core(s.(dhCli := Some(p.dhCli)));
        MoveOne(st, k, s.(dhCli := Some(p.dhCli)), mv, HandleClientHello(st, k, p, env));
      }
    }
  }

  lemma KeyMoves(s: Session, dhCli: Pub, issued: set<Priv>)
    requires s.stage.HelloSent? && s.dhPriv.Some? && s.nonceC.Some? && s.nonceS.Some?
    ensures Moves(Core(s), Core(s.(dhCli := Some(dhCli))), Heard, issued)
    ensures Moves(Core(s), Core(WithKeys(s, dhCli)), Keyed, issued)
  {
  }

  lemma DenyEffect(st: Server, k: PeerKey, u: Server, mv: Move, t: Session, reason: nat, sendOk: bool)
    requires k in st.sessions && Effect(st, k, u, mv, t) && k in u.sessions
    requires !u.sessions[k].authenticated && !u.sessions[k].handshaked
    ensures Effect(st, k, Deny(u, k, reason, sendOk), mv, t)
  {
    hide Effect, Send;
    var sent := SendSealed(u, k, MIdentityDeny, InIdentityDeny(reason), sendOk);
    ThenSend(st, k, u, mv, t, MIdentityDeny, InIdentityDeny(reason), Junk, sendOk);
    if k in sent.sessions {
      SendQuiet(u, k, MIdentityDeny, InIdentityDeny(reason), Junk, sendOk, k);
      var s := sent.sessions[k];
      assert s.(authenticated := false, handshaked := false) == s;
      assert Put(sent, k, s).sessions == sent.sessions;
      assert Put(sent, k, s) == sent;
    }
  }

  /** Where a login came from. */
  ghost predicate LoginBy(s: Session, t: Session, msg: Option<IdentityMsg>)
  {
    && msg.Some? && IdentityHolds(s, msg.value)
    && t.clientId == msg.value.text.clientId && t.cliPub == Some(msg.value.text.cliPub)
  }

  lemma IdentityEffect(st: Server, k: PeerKey, msg: Option<IdentityMsg>, env: Env) returns (mv: Move, t: Session)
    requires Inv(st) && k in st.sessions && st.sessions[k].encReady
    ensures Effect(st, k, HandleIdentity(st, k, msg, env), mv, t)
    ensures mv.Quiet? || ((mv.Named? || mv.Gated?) && LoginBy(st.sessions[k], t, msg))
  {
    var s := st.sessions[k];
    KeysOrAuthed(st, k);
    StageOf(st, k);
    assert !s.authenticated ==> !s.handshaked;
    StaysQuiet(st, k);
    mv, t := Quiet, Core(s);
    hide Inv, Send, Deny, LogIn, IdentityHolds, StageOk, HelloCacheOk, Effect, Core;
    if s.authenticated {
      ThenSend(st, k, st, mv, t, MIdentityOk, InIdentityOk(s.vip, st.cfg.prefix), Junk, env.sendOk);
    } else if msg.None? || !IdentityHolds(s, msg.value) {
      DenyEffect(st, k, st, mv, t, 0, env.sendOk);
    } else {
      HoldsIsIdentity(s, msg.value);
      RegistryKeeps(st, msg.value, env);
      var c := ConsultRegistry(st, msg.value, env);
      ThenQuiet(st, k, st, mv, t, c.st);
      match c
      case Rejected(u, reason) => DenyEffect(st, k, u, mv, t, reason, env.sendOk);
      case Registered(u) =>
        if env.svcRefuses {
          DenyEffect(st, k, u, mv, t, 2, env.sendOk);
        } else {
          mv, t := LogInEffect(st, u, k, msg.value.text.clientId, msg.value.text.cliPub, env);
        }
    }
  }

  lemma LogInEffect(st: Server, u: Server, k: PeerKey, id: string, cliPub: SigKey, env: Env) returns (mv: Move, t: Session)
    requires Inv(u) && k in st.sessions && u.sessions == st.sessions && u.sessions[k].stage.KeysReady?
    requires u == st.(tokens := u.tokens, clients := u.clients)
    ensures Effect(st, k, LogIn(u, k, id, cliPub, env), mv, t)
    ensures (mv.Named? || mv.Gated?) && t.clientId == id && t.cliPub == Some(cliPub)
  {
    var s := u.sessions[k];
    var n := s.(clientId := id, cliPub := Some(cliPub));
    var vs := Victims(Put(u, k, n), k);
    var alone := ReleaseAll(Put(u, k, n), vs);
    NotYetAssigned(u, k);
    var g := AllocateVip(alone, id, env.draws);
    AllocateGives(alone, id, env.draws);
    KickedLeavesAlone(st, u, k, n, g.st, id, env.draws);
    NamedMove(s, n, g.ip, st.issued);
    NamedEffect(st, k, n, g.st, vs);
    assert !n.handshaked && !n.authenticated by { StageOf(u, k); }
    hide Inv, AllocateVip, Deny, Effect, Moves, Send, Alone, Core, ReleaseAll, Victims, WithAddress;
    if g.ip == 0 {
      mv, t := Named, Core(n);
      DenyEffect(st, k, g.st, mv, t, 0, env.sendOk);
    } else {
      mv, t := Gated, Core(WithAddress(n, g.ip));
      GatedSends(st, k, n, g.st, vs, g.ip, env);
    }
    NamesOf(n, g.ip);
  }

  lemma NamesOf(n: Session, ip: nat)
    ensures Core(n).clientId == n.clientId && Core(n).cliPub == n.cliPub
    ensures Core(WithAddress(n, ip)).clientId == n.clientId && Core(WithAddress(n, ip)).cliPub == n.cliPub
  {
  }

  lemma KickedLeavesAlone(st: Server, u: Server, k: PeerKey, n: Session, v: Server, id: string, draws: seq<nat>)
    requires k in st.sessions && u == st.(tokens := u.tokens, clients := u.clients)
    requires var alone := ReleaseAll(Put(u, k, n), Victims(Put(u, k, n), k));
             v == alone.(pool := v.pool, lastVip := v.lastVip)
    ensures var vs := Victims(Put(u, k, n), k);
            && Alone(st, k, n, v, vs) && k in v.sessions && v.sessions[k] == n
            && k in ReleaseAll(Put(u, k, n), vs).sessions && ReleaseAll(Put(u, k, n), vs).sessions[k] == n
  {
    var named := Put(u, k, n);
    assert Victims(named, k) == set v | v in st.sessions && v != k && st.sessions[v].cliPub == n.cliPub;
  }

  lemma GatedSends(st: Server, k: PeerKey, n: Session, u: Server, vs: set<PeerKey>, ip: nat, env: Env)
    requires k in st.sessions && Alone(st, k, n, u, vs) && k in u.sessions && u.sessions[k] == n
    requires Moves(Core(st.sessions[k]), Core(WithAddress(n, ip)), Gated, st.issued)
    ensures Effect(st, k, Admitting(Assign(u, k, ip), k, env), Gated, Core(WithAddress(n, ip)))
  {
    var placed := Assign(u, k, ip);
    var gate := OpenGate(placed, k);
    GatedEffect(st, k, n, u, vs, ip, gate);
    assert placed.sessions[k].vip == ip && placed.cfg == st.cfg && k in gate.sessions;
    hide Effect, Moves, Send, Alone, Core, WithAddress, OpenGate, Assign;
    ThenSend(st, k, gate, Gated, Core(WithAddress(n, ip)), MIdentityOk, InIdentityOk(ip, st.cfg.prefix), Junk, env.sendOk);
  }

  lemma NamedMove(s: Session, n: Session, ip: nat, issued: set<Priv>)
    requires s.stage.KeysReady? && n == s.(clientId := n.clientId, cliPub := n.cliPub)
    ensures Moves(Core(s), Core(n), Named, issued)
    ensures Moves(Core(s), Core(WithAddress(n, ip)), Gated, issued)
  {
  }

  /** The login named the session and ended those of the same key. */
  ghost predicate Alone(st: Server, k: PeerKey, n: Session, u: Server, vs: set<PeerKey>)
  {
    && u.cfg == st.cfg && u.issued == st.issued && u.out == st.out && u.bindings == st.bindings && u.spent == st.spent
    && u.sessions == st.sessions[k := n] - vs
    && vs == set v | v in st.sessions && v != k && st.sessions[v].cliPub == n.cliPub
  }

  lemma NamedEffect(st: Server, k: PeerKey, n: Session, u: Server, vs: set<PeerKey>)
    requires k in st.sessions && Alone(st, k, n, u, vs)
    requires Moves(Core(st.sessions[k]), Core(n), Named, st.issued)
    ensures Effect(st, k, u, Named, Core(n))
  {
    CoreBinding(k, n, st.cfg.prefix);
    hide Moves, BindingOf, Spent;
  }

  lemma GatedEffect(st: Server, k: PeerKey, n: Session, u: Server, vs: set<PeerKey>, ip: nat, gate: Server)
    requires k in st.sessions && Alone(st, k, n, u, vs)
    requires Moves(Core(st.sessions[k]), Core(WithAddress(n, ip)), Gated, st.issued)
    requires k in u.sessions && u.sessions[k] == n && gate == OpenGate(Assign(u, k, ip), k)
    ensures Effect(st, k, gate, Gated, Core(WithAddress(n, ip)))
  {
    var a := WithAddress(n, ip);
    CoreBinding(k, a, st.cfg.prefix);
    GateFields(u, k, n, ip);
    assert Core(a).cliPub == n.cliPub;
    assert Made(Gated, Core(a)) == {};
    hide Moves, BindingOf, Spent, OpenGate, Assign, Core, WithAddress, Made;
    AloneOthers(st, k, n, u, vs, gate.sessions, a, Gated);
    hide Others, Alone;
    assert st.issued + {} == st.issued;
  }

  lemma GateFields(u: Server, k: PeerKey, n: Session, ip: nat)
    requires k in u.sessions && u.sessions[k] == n
    ensures var gate := OpenGate(Assign(u, k, ip), k);
            var a := WithAddress(n, ip);
            && gate.sessions == u.sessions[k := a] && gate.bindings == u.bindings + {BindingOf(k, a, u.cfg.prefix)}
            && gate.cfg == u.cfg && gate.issued == u.issued && gate.spent == u.spent && gate.out == u.out
  {
  }

  lemma AloneOthers(st: Server, k: PeerKey, n: Session, u: Server, vs: set<PeerKey>, sessions: map<PeerKey, Session>, a: Session, mv: Move)
    requires k in st.sessions && Alone(st, k, n, u, vs) && k in u.sessions && (mv.Named? || mv.Gated?)
    requires sessions == u.sessions[k := a] && Core(a).cliPub == n.cliPub
    ensures u.cfg == st.cfg && u.issued == st.issued && u.out == st.out && u.bindings == st.bindings && u.spent == st.spent
    ensures forall v: Server :: v.sessions == sessions ==> Others(st, k, v, mv, Core(a))
  {
    hide Core;
  }
}
