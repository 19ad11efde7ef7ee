/** Repeated hellos: which of them only resend, and which start over. */
module ServerHandshake {
  import opened Text
  import opened Replay
  import opened Protocol
  import opened VipPool
  import opened RateLimiters
  import opened ServerSpec
  import opened ServerInv
  import opened ServerSteps
  import opened ServerMoves

  /** Everything but the sessions and the frames sent. */
  predicate SameBut(st: Server, u: Server)
  {
    u == st.(sessions := u.sessions, vipToKey := u.vipToKey, pool := u.pool, out := u.out)
  }

  /** While the handshake waits for the client's key, the same nonce again resends
      the same signed reply and nothing more: no key changes, no token is charged. */
  lemma RetransmissionOnlyResends(st: Server, k: PeerKey, p: Clear, env: Env)
    requires Inv(st) && k in st.sessions && p.Hello?
    requires st.sessions[k].dhPriv.Some? && st.sessions[k].nonceC == Some(p.nonceC)
    ensures var u := HandleAuthHello(st, k, p, env);
            var s := st.sessions[k];
            && SameBut(st, u)
            && (forall l :: l in u.sessions ==> l in st.sessions && Core(u.sessions[l]) == Core(st.sessions[l]))
            && (u.out == st.out ||
                (s.nonceS.Some? && s.dhSrv.Some? && st.cfg.signKey.Some?
                 && u.out == st.out + [Sent(k, Frame(Header(if k.tcp then V_TCP else V_UDP, MServerHello, s.seqNo),
                                                     Open(HelloReply(st.cfg.signKey.value, s))))]))
  {
    PrivateKeyHeld(st, k);
    StageOf(st, k);
    assert !st.sessions[k].authenticated && st.sessions[k].nonceS.Some? by { Waiting(st.sessions[k]); }
    hide Inv, SendServerHello, StageOk, HelloCacheOk, SameBut, Core, HelloReply;
    SameAsNow(st);
    if st.cfg.signKey.Some? {
      ResendsReply(st, k, st.cfg.signKey.value, env);
    }
  }

  lemma Waiting(s: Session)
    requires StageOk(s) && s.dhPriv.Some?
    ensures !s.authenticated && s.nonceS.Some? && s.stage.HelloSent?
  {
  }

  lemma SameAsNow(st: Server)
    ensures SameBut(st, st)
  {
  }

  lemma ResendsReply(st: Server, k: PeerKey, signKey: SigKey, env: Env)
    requires k in st.sessions && st.cfg.signKey == Some(signKey) && HelloCacheOk(st.cfg, st.sessions[k])
    requires var s := st.sessions[k]; s.nonceC.Some? && s.nonceS.Some? && s.dhSrv.Some?
    ensures var u := SendServerHello(st, k, signKey, env);
            var s := st.sessions[k];
            && SameBut(st, u)
            && (forall l :: l in u.sessions ==> l in st.sessions && Core(u.sessions[l]) == Core(st.sessions[l]))
            && (u.out == st.out ||
                u.out == st.out + [Sent(k, Frame(Header(if k.tcp then V_TCP else V_UDP, MServerHello, s.seqNo),
                                                 Open(HelloReply(signKey, s))))])
  {
    var s := st.sessions[k];
    var cached := WithReply(s, signKey);
    SameAsNow(st);
    CachedIsReply(st.cfg, s, signKey);
    HelloOutcome(st, k, signKey, env);
    hide Send, HelloReply, Core, SameBut, SendServerHello, Numbered, HelloCacheOk, SentFrame, WithReply;
    var u := SendServerHello(st, k, signKey, env);
    if u != st {
      SentSame(st, k, cached, HelloReply(signKey, s), u);
      SentSessions(st, k, cached, HelloReply(signKey, s), u);
    }
  }

  /** What a send of this session state, carrying this reply, may leave behind. */
  ghost predicate Outcome(st: Server, k: PeerKey, s: Session, reply: Clear, u: Server)
  {
    var n := Numbered(s);
    var v := Put(st, k, s);
    || u == Put(v, k, n).(out := st.out + [Sent(k, SentFrame(s, k, MServerHello, InOther, reply))])
    || u == Put(v, k, n) || u == Put(v, k, n.(tcpDrop := true)) || u == Release(Put(v, k, n), k)
  }

  lemma HelloOutcome(st: Server, k: PeerKey, signKey: SigKey, env: Env)
    requires k in st.sessions
    requires var s := st.sessions[k]; s.nonceC.Some? && s.nonceS.Some? && s.dhSrv.Some?
    ensures var u := SendServerHello(st, k, signKey, env);
            var cached := WithReply(st.sessions[k], signKey);
            u == st || (cached.hello.Some? && Outcome(st, k, cached, cached.hello.value, u))
  {
    var s := st.sessions[k];
    hide Send, HelloReply, Release, Numbered, SentFrame, WithReply;
    if s.hello.Some? || env.signOk {
      SendsCached(st, k, signKey, env);
      var cached := WithReply(s, signKey);
      SendForms(Put(st, k, cached), k, MServerHello, InOther, cached.hello.value, env.sendOk);
    } else {
      assert SendServerHello(st, k, signKey, env) == st;
    }
  }

  lemma SentSessions(st: Server, k: PeerKey, s: Session, reply: Clear, u: Server)
    requires k in st.sessions && Outcome(st, k, s, reply, u)
    ensures forall l :: l in u.sessions ==> l in st.sessions && (l != k ==> u.sessions[l] == st.sessions[l])
    ensures k in u.sessions ==> Core(u.sessions[k]) == Core(s) && u.sessions[k].stage == s.stage
  {
    var n := Numbered(s);
    NumberedIsRenumbered(s);
    RenumberedCore(s, n);
    RenumberedCore(s, n.(tcpDrop := true));
    CoreKeeps(s);
    CoreKeeps(n);
    CoreKeeps(n.(tcpDrop := true));
    hide Core, Numbered, SentFrame, Release;
    ReleaseFields(Put(Put(st, k, s), k, n), k);
  }

  lemma CachedIsReply(cfg: Config, s: Session, signKey: SigKey)
    requires HelloCacheOk(cfg, s) && cfg.signKey == Some(signKey)
    requires s.nonceC.Some? && s.nonceS.Some? && s.dhSrv.Some?
    ensures WithReply(s, signKey).hello == Some(HelloReply(signKey, s)) && Core(WithReply(s, signKey)) == Core(s)
    ensures WithReply(s, signKey).seqNo == s.seqNo
  {
  }

  lemma SentSame(st: Server, k: PeerKey, cached: Session, reply: Clear, u: Server)
    requires k in st.sessions && cached.hello == Some(reply) && cached.seqNo == st.sessions[k].seqNo
    requires Outcome(st, k, cached, reply, u)
    ensures SameBut(st, u)
    ensures u.out == st.out ||
            u.out == st.out + [Sent(k, Frame(Header(if k.tcp then V_TCP else V_UDP, MServerHello, st.sessions[k].seqNo), Open(reply)))]
  {
    ReleaseFields(Put(st, k, Numbered(cached)), k);
  }

  /** Once keys are derived a hello leaves them alone exactly when it is refused: it
      names another nonce, the server cannot sign, or the source is over its rate.
      A repeated hello with the session's own nonce is not among these: the private
      key it would be recognised by is already destroyed, and the handshake restarts. */
  lemma KeysSurviveHelloIff(st: Server, k: PeerKey, p: Clear, env: Env)
    requires Inv(st) && k in st.sessions && st.sessions[k].stage.KeysReady? && p.Hello?
    ensures var u := HandleAuthHello(st, k, p, env);
            (k in u.sessions && Core(u.sessions[k]) == Core(st.sessions[k])) <==>
              (st.cfg.signKey.None? || Some(p.nonceC) != st.sessions[k].nonceC || !Allow(st.hsRl, k.ip, env.now).granted)
  {
    var s := st.sessions[k];
    StageOf(st, k);
    KeysStage(s);
    hide Inv, SendServerHello, StageOk, HelloCacheOk, Allow, Core, Restarted;
    var u := HandleAuthHello(st, k, p, env);
    RestartShape(s, p.nonceC, env.nonceS);
    CoreKeeps(s);
    if st.cfg.signKey.Some? && Some(p.nonceC) == s.nonceC && Allow(st.hsRl, k.ip, env.now).granted {
      var restarted := Restarted(s, p.nonceC, env.nonceS);
      if env.ephemeral.Some? {
        var e := env.ephemeral.value;
        var keyed := restarted.(dhPriv := Some(e), dhSrv := Some(Pub(e)));
        var v := Put(st.(hsRl := Allow(st.hsRl, k.ip, env.now).table), k, keyed).(issued := st.issued + {e});
        HelloKeepsStage(v, k, st.cfg.signKey.value, env);
      }
      assert k in u.sessions ==> u.sessions[k].stage.HelloSent?;
      if k in u.sessions {
        CoreKeeps(u.sessions[k]);
      }
    }
  }

  /** The restart in full: a repeat of the own nonce takes a session with keys back to
      the first stage, and its keys are gone. */
  lemma OwnNonceRestarts(st: Server, k: PeerKey, p: Clear, env: Env)
    requires Inv(st) && EnvFresh(st, env) && k in st.sessions && st.sessions[k].stage.KeysReady?
    requires p.Hello? && Some(p.nonceC) == st.sessions[k].nonceC && st.cfg.signKey.Some?
    requires Allow(st.hsRl, k.ip, env.now).granted
    ensures var u := HandleAuthHello(st, k, p, env);
            k in u.sessions ==> u.sessions[k].stage.HelloSent? && !u.sessions[k].encReady && u.sessions[k].keyC2S.None?
  {
    var s := st.sessions[k];
    StageOf(st, k);
    KeysStage(s);
    HelloKeeps(st, k, p, env);
    hide Inv, SendServerHello, StageOk, HelloCacheOk, Allow, Restarted;
    var u := HandleAuthHello(st, k, p, env);
    RestartShape(s, p.nonceC, env.nonceS);
    var restarted := Restarted(s, p.nonceC, env.nonceS);
    if env.ephemeral.Some? {
      var e := env.ephemeral.value;
      var keyed := restarted.(dhPriv := Some(e), dhSrv := Some(Pub(e)));
      HelloKeepsStage(Put(st.(hsRl := Allow(st.hsRl, k.ip, env.now).table), k, keyed).(issued := st.issued + {e}), k, st.cfg.signKey.value, env);
    }
    if k in u.sessions {
      assert u.sessions[k].stage.HelloSent?;
      StageOf(u, k);
      HelloHasNoKeys(u.sessions[k]);
    }
  }

  lemma HelloHasNoKeys(s: Session)
    requires StageOk(s) && s.stage.HelloSent?
    ensures !s.encReady && s.keyC2S.None?
  {
  }

  lemma KeysStage(s: Session)
    requires StageOk(s) && s.stage.KeysReady?
    ensures !s.authenticated && s.dhPriv.None? && s.encReady && s.nonceC.Some?
  {
  }

  lemma CoreKeeps(s: Session)
    ensures Core(s).stage == s.stage
  {
  }

  lemma HelloKeepsStage(st: Server, k: PeerKey, signKey: SigKey, env: Env)
    requires k in st.sessions
    requires var s := st.sessions[k]; s.nonceC.Some? && s.nonceS.Some? && s.dhSrv.Some?
    ensures var u := SendServerHello(st, k, signKey, env);
            k in u.sessions ==> u.sessions[k].stage == st.sessions[k].stage
  {
    HelloOutcome(st, k, signKey, env);
    var cached := WithReply(st.sessions[k], signKey);
    assert cached.stage == st.sessions[k].stage;
    hide SendServerHello, Outcome, HelloReply, WithReply;
    var u := SendServerHello(st, k, signKey, env);
    if u != st {
      SentSessions(st, k, cached, cached.hello.value, u);
    }
  }

  /** The server's goodbye travels in the clear, so no key opens it. */
  lemma ByeIsNeverSealed(st: Server, k: PeerKey, sendOk: bool)
    requires k in st.sessions
    ensures var r := Send(st, k, MDisconnect, InDisconnect, Junk, sendOk);
            r.ok ==> |r.st.out| == |st.out| + 1
                     && r.st.out[|st.out|].frame.hdr.typ == MDisconnect
                     && forall key :: Unseal(key, r.st.out[|st.out|].frame) == None
  {
    hide Release;
  }
}
