/** The server as it runs (server/UDP/UDP.cpp, server/UDP/Session.h): session objects
    and a table of them, updated in place. Every method is tied to the function of
    ServerSpec that it refines. */
module UdpServers {
  import opened Text
  import opened Replay
  import opened Protocol
  import opened VipPool
  import opened RateLimiters
  import opened ServerSpec
  import opened ServerInv
  import opened ServerSteps

  class PeerSession {
    const key: PeerKey
    const replay: ReplayWindow
    var createdAt: int
    var stage: Stage
    var nonceC: Option<Nonce>
    var nonceS: Option<Nonce>
    var dhCli: Option<Pub>
    var dhSrv: Option<Pub>
    var dhPriv: Option<Priv>
    var keyC2S: Option<SessionKey>
    var keyS2C: Option<SessionKey>
    var encReady: bool
    var authenticated: bool
    var handshaked: bool
    var released: bool
    var hello: Option<Clear>
    var clientId: string
    var cliPub: Option<SigKey>
    var vip: nat
    var ipAssigned: bool
    var tcpDrop: bool
    var seqNo: nat

    ghost function View(): Session
      reads this, replay
    {
      Session(createdAt, stage, nonceC, nonceS, dhCli, dhSrv, dhPriv, keyC2S, keyS2C, encReady, authenticated,
              handshaked, hello, clientId, cliPub, vip, ipAssigned, tcpDrop, seqNo, replay.View())
    }

    ghost predicate Live()
      reads this, replay
    {
      !released && replay.Valid()
    }

    constructor (k: PeerKey, now: int)
      ensures key == k && fresh(replay) && Live() && View() == NewSession(now)
    {
      key := k;
      replay := new ReplayWindow();
      createdAt, stage, nonceC, nonceS, dhCli, dhSrv, dhPriv := now, NoHandshake, None, None, None, None, None;
      keyC2S, keyS2C, encReady, authenticated, handshaked, released := None, None, false, false, false, false;
      hello, clientId, cliPub, vip, ipAssigned, tcpDrop, seqNo := None, "", None, 0, false, false, 0;
    }

    method ForgetKeys()
      modifies this
      ensures View() == old(View()).(keyC2S := None, keyS2C := None, encReady := false) && Live() == old(Live())
    {
      keyC2S := None;
      keyS2C := None;
      encReady := false;
    }

    method ForgetHello()
      modifies this
      ensures View() == old(View()).(dhPriv := None, hello := None) && Live() == old(Live())
    {
      dhPriv := None;
      hello := None;
    }

    method Begin(c: Nonce, n: Nonce)
      modifies this
      ensures View() == old(View()).(stage := HelloSent, nonceC := Some(c), nonceS := Some(n)) && Live() == old(Live())
    {
      stage := HelloSent;
      nonceC := Some(c);
      nonceS := Some(n);
    }

    /** Forget the previous handshake and start another. */
    method Restart(c: Nonce, n: Nonce)
      modifies this
      ensures View() == Restarted(old(View()), c, n) && Live() == old(Live())
    {
      hide View, Live;
      ForgetHello();
      ForgetKeys();
      CloseGate();
      Begin(c, n);
    }

    method TakeEphemeral(e: Priv)
      modifies this
      ensures View() == old(View()).(dhPriv := Some(e), dhSrv := Some(Pub(e))) && Live() == old(Live())
    {
      dhPriv := Some(e);
      dhSrv := Some(Pub(e));
    }

    method Cache(reply: Clear)
      modifies this`hello
      ensures hello == Some(reply) && View() == old(View()).(hello := Some(reply)) && Live() == old(Live())
    {
      hello := Some(reply);
    }

    method Hear(p: Pub)
      modifies this`dhCli
      ensures dhCli == Some(p) && View() == old(View()).(dhCli := Some(p)) && Live() == old(Live())
    {
      dhCli := Some(p);
    }

    /** Derive both keys, destroy the private key, move to the next stage. */
    method TakeKeys()
      requires dhPriv.Some? && nonceC.Some? && nonceS.Some? && dhCli.Some?
      modifies this
      ensures View() == WithKeys(old(View()), old(dhCli).value) && Live() == old(Live())
    {
      var secret := Dh(dhPriv.value, dhCli.value);
      keyC2S := Some(SessionKey(Tx, secret, nonceC.value, nonceS.value));
      keyS2C := Some(SessionKey(Rx, secret, nonceC.value, nonceS.value));
      dhPriv := None;
      stage := KeysReady;
      encReady := true;
    }

    method TakeNumber() returns (n: nat)
      modifies this`seqNo
      ensures n == old(seqNo) && View() == Numbered(old(View())) && Live() == old(Live())
    {
      n := seqNo;
      seqNo := (seqNo + 1) % SEQ_WORD;
    }

    method AskDrop()
      modifies this`tcpDrop
      ensures View() == old(View()).(tcpDrop := true) && Live() == old(Live())
    {
      tcpDrop := true;
    }

    method Name(id: string, pub: SigKey)
      modifies this
      ensures View() == old(View()).(clientId := id, cliPub := Some(pub)) && Live() == old(Live())
    {
      clientId := id;
      cliPub := Some(pub);
    }

    method Place(ip: nat)
      modifies this
      ensures View() == old(View()).(vip := ip, ipAssigned := true) && Live() == old(Live())
    {
      vip := ip;
      ipAssigned := true;
    }

    method OpenGate()
      modifies this
      ensures View() == old(View()).(authenticated := true, handshaked := true, stage := Authed) && Live() == old(Live())
    {
      authenticated := true;
      handshaked := true;
      stage := Authed;
    }

    method CloseGate()
      modifies this
      ensures View() == old(View()).(authenticated := false, handshaked := false) && Live() == old(Live())
    {
      authenticated := false;
      handshaked := false;
    }

    /** A session out of the table must not come back to life. */
    method Retire()
      modifies this
      ensures released && !encReady && !authenticated && !handshaked && stage == NoHandshake
    {
      released := true;
      encReady := false;
      authenticated := false;
      handshaked := false;
      stage := NoHandshake;
    }

    method Offer(n: nat) returns (ok: bool)
      requires Live() && n < SEQ_LIMIT
      modifies replay
      ensures ok == old(View()).replay.Accepts(n) && Live()
      ensures View() == old(View()).(replay := old(View()).replay.Offer(n))
    {
      ok := replay.Accept(n);
    }

    lemma Parts()
      ensures var v := View();
              && v.stage == stage && v.nonceC == nonceC && v.nonceS == nonceS && v.dhCli == dhCli && v.dhSrv == dhSrv
              && v.dhPriv == dhPriv && v.keyC2S == keyC2S && v.keyS2C == keyS2C && v.encReady == encReady
              && v.authenticated == authenticated && v.handshaked == handshaked && v.hello == hello
              && v.createdAt == createdAt && v.vip == vip && v.ipAssigned == ipAssigned && v.cliPub == cliPub
              && v.seqNo == seqNo && v.replay == replay.View()
    {
    }
  }

  twostate lemma Untouched(s: PeerSession)
    requires unchanged(s) && unchanged(s.replay)
    ensures s.View() == old(s.View()) && s.Live() == old(s.Live())
  {
  }

  lemma SendAtLimit(st: Server, k: PeerKey, typ: MsgType, inner: Inner, clear: Clear, sendOk: bool)
    requires k in st.sessions && st.sessions[k].seqNo >= SEQ_REKEY_LIMIT
    ensures var n := Numbered(st.sessions[k]);
            Send(st, k, typ, inner, clear, sendOk)
            == SendResult(false, if k.tcp then Put(st, k, n.(tcpDrop := true)) else Release(Put(st, k, n), k))
  {
    hide Release, ServerSeals;
  }

  /** The second half of a send: seal the frame and hand it over. */
  function SealedSend(st: Server, k: PeerKey, n: nat, typ: MsgType, inner: Inner, clear: Clear, sendOk: bool): SendResult
    requires k in st.sessions
  {
    var s := st.sessions[k];
    if ServerSeals(typ) && (!s.encReady || s.keyS2C.None?) then SendResult(false, st)
    else if !sendOk then SendResult(false, if k.tcp then Put(st, k, s.(tcpDrop := true)) else st)
    else
      var hdr := Header(if k.tcp then V_TCP else V_UDP, typ, n);
      SendResult(true, st.(out := st.out + [Sent(k, Frame(hdr, if ServerSeals(typ) then Sealed(s.keyS2C.value, hdr, inner) else Open(clear)))]))
  }

  function Handed(st: Server, k: PeerKey, f: Frame, sendOk: bool): SendResult
    requires k in st.sessions
  {
    SendResult(sendOk, if sendOk then st.(out := st.out + [Sent(k, f)])
                       else if k.tcp then Put(st, k, st.sessions[k].(tcpDrop := true)) else st)
  }

  lemma SealedSendIs(st: Server, k: PeerKey, n: nat, typ: MsgType, inner: Inner, clear: Clear, sendOk: bool)
    requires k in st.sessions
    ensures var s := st.sessions[k];
            var hdr := Header(if k.tcp then V_TCP else V_UDP, typ, n);
            SealedSend(st, k, n, typ, inner, clear, sendOk) ==
              if !ServerSeals(typ) then Handed(st, k, Frame(hdr, Open(clear)), sendOk)
              else if !s.encReady || s.keyS2C.None? then SendResult(false, st)
              else Handed(st, k, Frame(hdr, Sealed(s.keyS2C.value, hdr, inner)), sendOk)
  {
    hide ServerSeals;
  }

  lemma SendBelowLimit(st: Server, k: PeerKey, typ: MsgType, inner: Inner, clear: Clear, sendOk: bool)
    requires k in st.sessions && st.sessions[k].seqNo < SEQ_REKEY_LIMIT
    ensures var s := st.sessions[k];
            Send(st, k, typ, inner, clear, sendOk) == SealedSend(Put(st, k, Numbered(s)), k, s.seqNo, typ, inner, clear, sendOk)
  {
    var s := st.sessions[k];
    PutTwice(st, k, Numbered(s), Numbered(s).(tcpDrop := true));
    hide Release, ServerSeals;
  }

  lemma PutAgain(st: Server, k: PeerKey, s: Session, t: Session)
    ensures var u := Put(st, k, s);
            && Put(u, k, t) == Put(st, k, t) && k in u.sessions && u.sessions[k] == s
            && u.out == st.out
  {
    PutTwice(st, k, s, t);
  }

  lemma PutTwice(st: Server, k: PeerKey, s: Session, t: Session)
    ensures Put(Put(st, k, s), k, t) == Put(st, k, t)
  {
    assert st.sessions[k := s][k := t] == st.sessions[k := t];
  }

  class UdpServer {
    const cfg: Config
    const pool: VirtualIpPool
    const limiter: RateLimiter
    var sessions: map<PeerKey, PeerSession>
    var vipToKey: map<nat, PeerKey>
    var lastVip: map<string, nat>
    var clients: set<SigKey>
    var tokens: multiset<string>
    var out: seq<Sent>
    var uplinks: seq<Uplink>
    ghost var bindings: set<Binding>
    ghost var issued: set<Priv>
    ghost var spent: seq<Priv>

    ghost function Windows(): set<ReplayWindow>
      reads this
    {
      set k | k in sessions :: sessions[k].replay
    }

    ghost predicate Valid()
      reads this, sessions.Values, Windows()
    {
      && (forall k :: k in sessions ==> sessions[k].key == k && sessions[k].Live())
      && (forall k, l :: k in sessions && l in sessions && k != l ==> sessions[k].replay != sessions[l].replay)
    }

    ghost function Sessions(): map<PeerKey, Session>
      reads this, sessions.Values, Windows()
    {
      map k | k in sessions :: sessions[k].View()
    }

    ghost function View(): Server
      reads this, pool, limiter, sessions.Values, Windows()
    {
      Server(cfg, Sessions(), vipToKey, pool.View(), lastVip, limiter.m_hs_rl, clients, tokens,
             out, uplinks, bindings, issued, spent)
    }

    /** This object is the live session of its key. */
    ghost predicate Has(s: PeerSession)
      reads this
    {
      s.key in sessions && sessions[s.key] == s
    }

    constructor (gateway: nat, prefix: int, maxClients: nat, signKey: Option<SigKey>,
                 leases: map<string, nat>, registered: set<SigKey>, unused: multiset<string>)
      requires gateway < ADDRS
      ensures Valid() && fresh(pool) && fresh(limiter) && Started(View())
      ensures cfg == Config(if maxClients > 0 then maxClients else 64, if 0 < prefix <= 32 then prefix else 24, signKey)
      ensures lastVip == leases && clients == registered && tokens == unused
    {
      var c := Config(if maxClients > 0 then maxClients else 64, if 0 < prefix <= 32 then prefix else 24, signKey);
      cfg := c;
      pool := new VirtualIpPool(gateway, c.prefix);
      limiter := new RateLimiter();
      sessions, vipToKey, lastVip, clients, tokens := map[], map[], leases, registered, unused;
      out, uplinks, bindings, issued, spent := [], [], {}, {}, [];
    }

    // ---- what a change of one session does to the whole -----------------------------

    /** Sessions may leave the table, and only the one at k may have changed. */
    twostate lemma OneTouched(k: PeerKey)
      requires old(Valid())
      requires forall l :: l in sessions ==> l in old(sessions) && sessions[l] == old(sessions)[l]
      requires k in sessions ==> sessions[k].Live()
      requires forall l :: l in sessions && l != k ==> unchanged(sessions[l]) && unchanged(sessions[l].replay)
      ensures Valid()
      ensures Sessions().Keys == sessions.Keys && old(Sessions()).Keys == old(sessions).Keys
      ensures forall l :: l in sessions ==> Sessions()[l] == (if l == k then sessions[k].View() else old(Sessions())[l])
    {
      forall l | l in sessions && l != k
        ensures sessions[l].View() == old(sessions[l].View()) && sessions[l].Live() == old(sessions[l].Live())
      {
        Untouched(sessions[l]);
      }
      hide PeerSession.View, PeerSession.Live;
    }

    /** The state after a change of the session at k alone. */
    twostate lemma Now(k: PeerKey)
      requires old(Valid()) && k in old(sessions) && sessions == old(sessions)
      requires sessions[k].Live()
      requires forall l :: l in sessions && l != k ==> unchanged(sessions[l]) && unchanged(sessions[l].replay)
      ensures Valid()
      ensures View() == Server(cfg, old(View()).sessions[k := sessions[k].View()], vipToKey, pool.View(), lastVip, limiter.m_hs_rl,
                               clients, tokens, out, uplinks, bindings, issued, spent)
    {
      hide PeerSession.View, PeerSession.Live, Sessions, Valid;
      OneTouched(k);
      assert Sessions() == old(Sessions())[k := sessions[k].View()];
    }

    twostate lemma OnlySession(k: PeerKey)
      requires old(Valid()) && k in old(sessions) && unchanged(this) && unchanged(pool) && unchanged(limiter)
      requires sessions[k].Live()
      requires forall l :: l in sessions && l != k ==> unchanged(sessions[l]) && unchanged(sessions[l].replay)
      ensures Valid() && View() == Put(old(View()), k, sessions[k].View())
    {
      Now(k);
      hide PeerSession.View, Sessions, Valid;
    }

    /** The state after the session at k left the table. */
    twostate lemma Gone(k: PeerKey)
      requires old(Valid()) && sessions == old(sessions) - {k}
      requires forall l :: l in sessions ==> unchanged(sessions[l]) && unchanged(sessions[l].replay)
      ensures Valid()
      ensures View() == Server(cfg, old(View()).sessions - {k}, vipToKey, pool.View(), lastVip, limiter.m_hs_rl,
                               clients, tokens, out, uplinks, bindings, issued, spent)
    {
      hide PeerSession.View, PeerSession.Live, Sessions, Valid;
      OneTouched(k);
      assert Sessions() == old(Sessions()) - {k};
    }

    /** The state when no session changed. */
    twostate lemma Rest()
      requires old(Valid()) && sessions == old(sessions)
      requires forall l :: l in sessions ==> unchanged(sessions[l]) && unchanged(sessions[l].replay)
      ensures Valid()
      ensures View() == Server(cfg, old(View()).sessions, vipToKey, pool.View(), lastVip, limiter.m_hs_rl,
                               clients, tokens, out, uplinks, bindings, issued, spent)
    {
      forall l | l in sessions
        ensures sessions[l].View() == old(sessions[l].View()) && sessions[l].Live() == old(sessions[l].Live())
      {
        Untouched(sessions[l]);
      }
      hide PeerSession.View, PeerSession.Live;
      assert Sessions() == old(Sessions());
    }

    lemma Lookup(k: PeerKey)
      requires Valid()
      ensures View().sessions.Keys == sessions.Keys
      ensures k in sessions ==> View().sessions[k] == sessions[k].View() && sessions[k].key == k && sessions[k].Live()
      ensures forall l :: l in sessions && l != k && k in sessions ==>
                sessions[l] != sessions[k] && sessions[l].replay != sessions[k].replay
      ensures View() == Server(cfg, View().sessions, vipToKey, pool.View(), lastVip, limiter.m_hs_rl,
                               clients, tokens, out, uplinks, bindings, issued, spent)
    {
    }

    // ---- addresses ---------------------------------------------------------------------

    method ReleaseVirtualIp(ip: nat)
      modifies this`vipToKey, pool
      ensures vipToKey == (if ip == 0 then old(vipToKey) else old(vipToKey) - {ip})
      ensures pool.View() == (if ip == 0 then old(pool.View()) else old(pool.View()).Release(ip))
    {
      if ip == 0 {
        return;
      }
      vipToKey := vipToKey - {ip};
      pool.Release(ip);
    }

    method ReleaseSession(k: PeerKey)
      requires Valid()
      modifies this`sessions, this`vipToKey, pool, if k in sessions then {sessions[k]} else {}
      ensures Valid() && sessions == old(sessions) - {k}
      ensures View() == Release(old(View()), k)
      ensures k in old(sessions) ==> old(sessions)[k].released && !old(sessions)[k].authenticated && !old(sessions)[k].handshaked
    {
      hide View, Valid, PeerSession.Live, PeerSession.View;
      Lookup(k);
      if k !in sessions {
        assert sessions - {k} == sessions;
        return;
      }
      var victim := sessions[k];
      victim.Parts();
      sessions := sessions - {k};
      if victim.ipAssigned && victim.vip != 0 {
        ReleaseVirtualIp(victim.vip);
      }
      victim.Retire();
      Gone(k);
    }

    // ---- sending ------------------------------------------------------------------------

    /** A TCP connection is closed by its own thread; a UDP session just ends. */
    method EndAtLimit(s: PeerSession)
      requires Valid() && Has(s)
      modifies this`sessions, this`vipToKey, s, pool
      ensures Valid() && (sessions == old(sessions) || sessions == old(sessions) - {s.key})
      ensures View() == (if s.key.tcp then Put(old(View()), s.key, old(View()).sessions[s.key].(tcpDrop := true))
                         else Release(old(View()), s.key))
    {
      hide View, Valid, PeerSession.Live, PeerSession.View, Release, Put;
      Lookup(s.key);
      if s.key.tcp {
        s.AskDrop();
        OnlySession(s.key);
      } else {
        ReleaseSession(s.key);
      }
    }

    /** A send leaves the table as it is, or ends the sender's session. */
    method SendPacket(s: PeerSession, typ: MsgType, inner: Inner, clear: Clear, sendOk: bool) returns (ok: bool)
      requires Valid() && Has(s)
      modifies this`sessions, this`vipToKey, this`out, s, pool
      ensures Valid() && (sessions == old(sessions) || sessions == old(sessions) - {s.key})
      ensures SendResult(ok, View()) == Send(old(View()), s.key, typ, inner, clear, sendOk)
    {
      hide View, Valid, PeerSession.Live, PeerSession.View, Release, Send, Numbered, Put, SealedSend;
      Lookup(s.key);
      ghost var st := View();
      s.Parts();
      var n := s.TakeNumber();
      OnlySession(s.key);
      if n >= SEQ_REKEY_LIMIT {
        SendAtLimit(st, s.key, typ, inner, clear, sendOk);
        PutAgain(st, s.key, s.View(), s.View().(tcpDrop := true));
        EndAtLimit(s);
        return false;
      }
      Lookup(s.key);
      ok := SealAndSend(s, n, typ, inner, clear, sendOk);
      SendBelowLimit(st, s.key, typ, inner, clear, sendOk);
    }

    method SealAndSend(s: PeerSession, n: nat, typ: MsgType, inner: Inner, clear: Clear, sendOk: bool) returns (ok: bool)
      requires Valid() && Has(s)
      modifies this`out, s
      ensures Valid()
      ensures SendResult(ok, View()) == SealedSend(old(View()), s.key, n, typ, inner, clear, sendOk)
    {
      hide View, Valid, PeerSession.Live, PeerSession.View, Put, ServerSeals, SealedSend, Handed;
      Lookup(s.key);
      s.Parts();
      SealedSendIs(View(), s.key, n, typ, inner, clear, sendOk);
      var hdr := Header(if s.key.tcp then V_TCP else V_UDP, typ, n);
      if ServerSeals(typ) {
        if !s.encReady || s.keyS2C.None? {
          return false;
        }
        ok := HandOver(s, Frame(hdr, Sealed(s.keyS2C.value, hdr, inner)), sendOk);
      } else {
        ok := HandOver(s, Frame(hdr, Open(clear)), sendOk);
      }
    }

    /** Queue the frame for the TCP writer, or give it to the UDP socket. */
    method HandOver(s: PeerSession, f: Frame, sendOk: bool) returns (ok: bool)
      requires Valid() && Has(s)
      modifies this`out, s
      ensures Valid() && SendResult(ok, View()) == Handed(old(View()), s.key, f, sendOk)
    {
      hide View, Valid, PeerSession.Live, PeerSession.View;
      Lookup(s.key);
      if !sendOk {
        if s.key.tcp {
          s.AskDrop();
          Now(s.key);
        }
        return false;
      }
      out := out + [Sent(s.key, f)];
      Now(s.key);
      PutSame(old(View()), s.key);
      return true;
    }
  
    // ---- stages 1 and 2 -----------------------------------------------------------------

    /** Sign once, then send the cached reply. */
    method SendServerHello(s: PeerSession, signKey: SigKey, env: Env)
      requires Valid() && Has(s) && s.nonceC.Some? && s.nonceS.Some? && s.dhSrv.Some?
      requires View().sessions[s.key].nonceC.Some? && View().sessions[s.key].nonceS.Some? && View().sessions[s.key].dhSrv.Some?
      modifies this`sessions, this`vipToKey, this`out, s, pool
      ensures Valid()
      ensures View() == ServerSpec.SendServerHello(old(View()), s.key, signKey, env)
    {
      hide View, Valid, PeerSession.Live, PeerSession.View, Send, Put, ServerSpec.SendServerHello, Reply;
      Lookup(s.key);
      s.Parts();
      HelloCases(View(), s.key, signKey, env);
      if s.hello.None? {
        if !env.signOk {
          return;
        }
        SignReply(s, signKey);
      }
      var _ := SendPacket(s, MServerHello, InOther, s.hello.value, env.sendOk);
    }

    method SignReply(s: PeerSession, signKey: SigKey)
      requires Valid() && Has(s) && s.nonceC.Some? && s.nonceS.Some? && s.dhSrv.Some?
      modifies s`hello
      ensures Valid() && s.hello == Some(Reply(signKey, s.nonceC.value, s.nonceS.value, s.dhSrv.value))
      ensures View() == Put(old(View()), s.key, old(View()).sessions[s.key].(hello := s.hello))
    {
      hide View, Valid, PeerSession.Live, PeerSession.View, Put;
      Lookup(s.key);
      s.Cache(Reply(signKey, s.nonceC.value, s.nonceS.value, s.dhSrv.value));
      OnlySession(s.key);
    }

    method HandleAuthHello(s: PeerSession, p: Clear, env: Env)
      requires Valid() && Has(s) && env.now > 0 && Sound(limiter.m_hs_rl, env.now)
      modifies this, s, pool, limiter
      ensures Valid() && Sound(limiter.m_hs_rl, env.now)
      ensures View() == ServerSpec.HandleAuthHello(old(View()), s.key, p, env)
    {
      hide View, Valid, PeerSession.Live, PeerSession.View, Put, ServerSpec.SendServerHello, Allow, Restarted;
      Lookup(s.key);
      s.Parts();
      if !p.Hello? {
        return;
      }
      if cfg.signKey.None? {
        return;
      }
      if s.stage == Authed || s.authenticated {
        return;
      }
      if s.nonceC == Some(p.nonceC) && s.dhPriv.Some? && s.nonceS.Some? && s.dhSrv.Some? {
        SendServerHello(s, cfg.signKey.value, env);
        return;
      }
      if (s.stage == KeysReady || s.authenticated || s.encReady || s.handshaked)
         && s.nonceC.Some? && s.nonceC.value != p.nonceC {
        return;
      }
      var granted := limiter.AllowHandshakeRecompute(s.key.ip, env.now);
      Rest();
      if !granted {
        return;
      }
      Recompute(s, p.nonceC, cfg.signKey.value, env);
    }

    /** Start the handshake over with a new server nonce and ephemeral key. */
    method Recompute(s: PeerSession, nonceC: Nonce, signKey: SigKey, env: Env)
      requires Valid() && Has(s)
      modifies this`sessions, this`vipToKey, this`out, this`issued, s, pool
      ensures Valid()
      ensures var st := old(View());
              var restarted := Restarted(st.sessions[s.key], nonceC, env.nonceS);
              View() == match env.ephemeral
                        case None => Put(st, s.key, restarted)
                        case Some(e) =>
                          var keyed := Put(st, s.key, restarted.(dhPriv := Some(e), dhSrv := Some(Pub(e)))).(issued := st.issued + {e});
                          ServerSpec.SendServerHello(keyed, s.key, signKey, env)
    {
      hide View, Valid, PeerSession.Live, PeerSession.View, ServerSpec.SendServerHello, Restarted;
      Lookup(s.key);
      RestartShape(s.View(), nonceC, env.nonceS);
      s.Restart(nonceC, env.nonceS);
      if env.ephemeral.None? {
        Now(s.key);
        return;
      }
      s.TakeEphemeral(env.ephemeral.value);
      issued := issued + {env.ephemeral.value};
      Now(s.key);
      s.Parts();
      Lookup(s.key);
      SendServerHello(s, signKey, env);
    }

    method HandleAuthClientHello(s: PeerSession, p: Clear, env: Env)
      requires Valid() && Has(s)
      modifies s, this`spent
      ensures Valid()
      ensures View() == HandleClientHello(old(View()), s.key, p, env)
    {
      hide View, Valid, PeerSession.Live, PeerSession.View;
      Lookup(s.key);
      s.Parts();
      if !p.ClientHello? {
        return;
      }
      if s.stage != HelloSent {
        return;
      }
      if s.dhPriv.None? || s.nonceC.None? || s.nonceS.None? {
        return;
      }
      ghost var e := s.dhPriv.value;
      s.Hear(p.dhCli);
      if !env.dhOk {
        Now(s.key);
        return;
      }
      s.TakeKeys();
      spent := spent + [e];
      Now(s.key);
    }

    // ---- allocation ------------------------------------------------------------------------

    method Remember(id: string, ip: nat)
      modifies this`lastVip
      ensures lastVip == ServerSpec.Remember(old(lastVip), id, ip)
    {
      if id == "" {
        return;
      }
      if |lastVip| > MAX_LEASES {
        lastVip := map[];
      }
      lastVip := lastVip[id := ip];
    }

    /** Whether another client id holds the lease of an address. */
    method LeasedBySomeoneElse(id: string, ip: nat) returns (elsewhere: bool)
      ensures elsewhere == LeasedElsewhere(lastVip, id, ip)
    {
      var todo := lastVip.Keys;
      while todo != {}
        invariant todo <= lastVip.Keys
        invariant forall other :: other in lastVip && other !in todo ==> other == id || lastVip[other] != ip
        decreases todo
      {
        var other :| other in todo;
        if other != id && lastVip[other] == ip {
          return true;
        }
        todo := todo - {other};
      }
      return false;
    }

    /** First the leased address, if it is free. */
    method TryLease(id: string) returns (ip: nat)
      requires Valid()
      modifies pool
      ensures Valid()
      ensures ip != 0 <==> TierOf(old(View()), id).ByLease?
      ensures ip != 0 ==> forall draws :: Given(ip, View()) == AllocateVip(old(View()), id, draws)
      ensures ip == 0 ==> View() == old(View())
    {
      hide View, Valid, Preferred, Pool.Allocated, LeasedElsewhere, ServerSpec.Remember;
      Lookup(PeerKey(0, 0, false));
      if id != "" && id in lastVip && lastVip[id] != 0 {
        var ok := pool.TryAcquire(lastVip[id]);
        Rest();
        if ok {
          return lastVip[id];
        }
      }
      return 0;
    }

    /** Then the address the identity maps to, if it is free and nobody else's. */
    method TryIdentity(id: string) returns (ip: nat)
      requires Valid() && !TierOf(View(), id).ByLease?
      modifies this`lastVip, pool
      ensures Valid()
      ensures ip != 0 <==> TierOf(old(View()), id).ByIdentity?
      ensures ip != 0 ==> forall draws :: Given(ip, View()) == AllocateVip(old(View()), id, draws)
      ensures ip == 0 ==> View() == old(View())
    {
      hide View, Valid, Preferred, Pool.Allocated, LeasedElsewhere, ServerSpec.Remember;
      Lookup(PeerKey(0, 0, false));
      if id == "" {
        return 0;
      }
      var hint := pool.PreferredFor(id);
      Rest();
      assert hint == Preferred(old(View()).pool, id) && pool.View() == old(pool.View());
      if hint != 0 {
        var elsewhere := LeasedBySomeoneElse(id, hint);
        if !elsewhere {
          var ok := pool.TryAcquire(hint);
          if ok {
            Remember(id, hint);
            Rest();
            return hint;
          }
          assert pool.View() == old(pool.View()) && !old(pool.View()).Free(hint);
        }
      }
      Rest();
      return 0;
    }

    method AllocateVirtualIp(id: string, draws: seq<nat>) returns (ip: nat)
      requires Valid()
      modifies this`lastVip, pool
      ensures Valid()
      ensures Given(ip, View()) == AllocateVip(old(View()), id, draws)
    {
      hide View, Valid, Preferred, Pool.Allocated, LeasedElsewhere, ServerSpec.Remember, TierOf;
      ghost var st := View();
      ip := TryLease(id);
      if ip != 0 {
        return ip;
      }
      ip := TryIdentity(id);
      if ip != 0 {
        return ip;
      }
      Lookup(PeerKey(0, 0, false));
      assert TierOf(st, id).ByChance?;
      ip := pool.Allocate(draws);
      if ip != 0 {
        Remember(id, ip);
      }
      Rest();
    }

    // ---- stage 3 -----------------------------------------------------------------------------

    method Deny(s: PeerSession, reason: nat, sendOk: bool)
      requires Valid() && Has(s)
      modifies this`sessions, this`vipToKey, this`out, s, pool
      ensures Valid()
      ensures View() == ServerSpec.Deny(old(View()), s.key, reason, sendOk)
    {
      hide View, Valid, PeerSession.Live, PeerSession.View, Send;
      var _ := SendPacket(s, MIdentityDeny, InIdentityDeny(reason), Junk, sendOk);
      label sent:
      Lookup(s.key);
      Strangers(s);
      s.CloseGate();
      if s.key in sessions {
        OnlySession@sent(s.key);
      } else {
        Rest@sent();
      }
    }

    /** End every other session that logged in with the same public key. */
    method KickSameKey(s: PeerSession)
      requires Valid() && Has(s)
      modifies this`sessions, this`vipToKey, pool, sessions.Values - {s}
      ensures Valid() && Has(s)
      ensures View() == ReleaseAll(old(View()), Victims(old(View()), s.key))
    {
      hide PeerSession.Live, PeerSession.View, View, Valid, ReleaseAll, Victims;
      var victims := SameKey(s);
      EndAll(s, victims);
    }

    method SameKey(s: PeerSession) returns (victims: set<PeerKey>)
      requires Valid() && Has(s)
      ensures victims == Victims(View(), s.key) && victims <= sessions.Keys && s.key !in victims
      ensures Valid() && View() == old(View())
    {
      hide PeerSession.Live, PeerSession.View, View;
      victims := {};
      var todo := sessions.Keys;
      while todo != {}
        invariant todo <= sessions.Keys
        invariant victims == set v | v in sessions.Keys - todo && sessions[v] != s && sessions[v].cliPub == s.cliPub
        decreases todo
      {
        var v :| v in todo;
        todo := todo - {v};
        if sessions[v] != s && sessions[v].cliPub == s.cliPub {
          victims := victims + {v};
        }
      }
      VictimsAre(s, victims);
    }

    method EndAll(s: PeerSession, victims: set<PeerKey>)
      requires Valid() && Has(s) && victims <= sessions.Keys && s.key !in victims
      modifies this`sessions, this`vipToKey, pool, sessions.Values - {s}
      ensures Valid() && Has(s)
      ensures View() == ReleaseAll(old(View()), victims)
    {
      hide PeerSession.Live, PeerSession.View, View, Valid, Release, ReleaseAll;
      ghost var st := View();
      ghost var done: set<PeerKey> := {};
      Lookup(s.key);
      ReleaseNone(st);
      assert sessions - {} == sessions;
      var todo := victims;
      while todo != {}
        invariant todo !! done && todo + done == victims
        invariant Valid() && Has(s) && sessions == old(sessions) - done
        invariant View() == ReleaseAll(st, done)
        decreases todo
      {
        var v :| v in todo;
        todo := todo - {v};
        assert sessions[v] in old(sessions).Values && v in st.sessions;
        assert old(sessions) - done - {v} == old(sessions) - (done + {v});
        ReleaseNext(st, done, v);
        EndOne(s, v);
        done := done + {v};
      }
      assert done == victims;
    }

    method EndOne(s: PeerSession, v: PeerKey)
      requires Valid() && Has(s) && v in sessions && v != s.key
      modifies this`sessions, this`vipToKey, pool, sessions[v]
      ensures Valid() && Has(s) && sessions == old(sessions) - {v}
      ensures View() == Release(old(View()), v)
      ensures old(sessions)[v] != s
    {
      hide PeerSession.Live, PeerSession.View, View, Valid, Release;
      Lookup(v);
      ReleaseSession(v);
    }

    lemma Strangers(s: PeerSession)
      requires Valid()
      ensures s.key !in sessions ==> forall l :: l in sessions ==> sessions[l] != s
    {
    }

    lemma VictimsAre(s: PeerSession, vs: set<PeerKey>)
      requires Valid() && Has(s)
      requires vs == set v | v in sessions.Keys && sessions[v] != s && sessions[v].cliPub == s.cliPub
      ensures vs == Victims(View(), s.key)
    {
      forall v | v in sessions
        ensures View().sessions[v].cliPub == sessions[v].cliPub && (sessions[v] != s <==> v != s.key)
      {
        Lookup(v);
        sessions[v].Parts();
      }
    }

    /** The registration files: a token is used up, a key is added or looked up. */
    method ConsultRegistry(m: IdentityMsg, env: Env) returns (refusal: Option<nat>)
      requires Valid() && m.text.IdentityText?
      modifies this`tokens, this`clients
      ensures Valid()
      ensures var r := ServerSpec.ConsultRegistry(old(View()), m, env);
              View() == r.st && refusal == if r.Rejected? then Some(r.reason) else None
    {
      hide View, Valid;
      Lookup(PeerKey(0, 0, false));
      if m.flags == 1 {
        if m.token == "" {
          return Some(1);
        }
        if m.token !in tokens || !env.tokenFileOk {
          return Some(1);
        }
        tokens := tokens - multiset{m.token};
        Rest();
        if !env.clientFileOk {
          return Some(1);
        }
        clients := clients + {m.text.cliPub};
        Rest();
        return None;
      }
      if m.text.cliPub !in clients {
        return Some(0);
      }
      return None;
    }

    /** The address goes to the session and into the index. */
    method AssignAddress(s: PeerSession, ip: nat)
      requires Valid() && Has(s)
      modifies this`vipToKey, s
      ensures Valid() && View() == Assign(old(View()), s.key, ip)
    {
      hide View, Valid, PeerSession.View, PeerSession.Live;
      Lookup(s.key);
      s.Place(ip);
      vipToKey := vipToKey[ip := s.key];
      Now(s.key);
    }

    method Admit(s: PeerSession, env: Env)
      requires Valid() && Has(s)
      modifies this`sessions, this`vipToKey, this`out, this`bindings, s, pool
      ensures Valid() && View() == Admitting(old(View()), s.key, env)
    {
      hide View, Valid, PeerSession.View, PeerSession.Live, Send, Put, BindingOf, OpenGate;
      Lookup(s.key);
      s.Parts();
      var vip := s.vip;
      OpenFor(s);
      var _ := SendPacket(s, MIdentityOk, InIdentityOk(vip, cfg.prefix), Junk, env.sendOk);
    }

    method OpenFor(s: PeerSession)
      requires Valid() && Has(s)
      modifies this`bindings, s
      ensures Valid() && View() == OpenGate(old(View()), s.key)
    {
      hide View, Valid, PeerSession.View, PeerSession.Live, BindingOf;
      Lookup(s.key);
      s.OpenGate();
      bindings := bindings + {BindingOf(s.key, s.View(), cfg.prefix)};
      Now(s.key);
    }

    method LogIn(s: PeerSession, id: string, pub: SigKey, env: Env)
      requires Valid() && Has(s)
      modifies this`sessions, this`vipToKey, this`lastVip, this`out, this`bindings, sessions.Values, pool
      ensures Valid() && View() == ServerSpec.LogIn(old(View()), s.key, id, pub, env)
    {
      hide View, Valid, PeerSession.View, PeerSession.Live, ReleaseAll, Victims, AllocateVip, ServerSpec.Deny, Admitting, Assign;
      Lookup(s.key);
      s.Name(id, pub);
      OnlySession(s.key);
      KickSameKey(s);
      Lookup(s.key);
      s.Parts();
      if s.ipAssigned {
        Admit(s, env);
        return;
      }
      var ip := AllocateVirtualIp(id, env.draws);
      if ip == 0 {
        Deny(s, 0, env.sendOk);
        return;
      }
      AssignAddress(s, ip);
      Admit(s, env);
    }

    method HandleIdentity(s: PeerSession, msg: Option<IdentityMsg>, env: Env)
      requires Valid() && Has(s)
      modifies this, sessions.Values, pool
      ensures Valid() && View() == ServerSpec.HandleIdentity(old(View()), s.key, msg, env)
    {
      hide View, Valid, PeerSession.View, PeerSession.Live, ServerSpec.LogIn, ServerSpec.Deny, Send, IdentityHolds;
      Lookup(s.key);
      s.Parts();
      if s.authenticated {
        var _ := SendPacket(s, MIdentityOk, InIdentityOk(s.vip, cfg.prefix), Junk, env.sendOk);
        return;
      }
      if msg.None? {
        Deny(s, 0, env.sendOk);
        return;
      }
      var m := msg.value;
      var fits := Fits(s, m);
      if !fits {
        Deny(s, 0, env.sendOk);
        return;
      }
      HoldsIsIdentity(s.View(), m);
      var refusal := ConsultRegistry(m, env);
      if refusal.Some? {
        Deny(s, refusal.value, env.sendOk);
        return;
      }
      if env.svcRefuses {
        Deny(s, 2, env.sendOk);
        return;
      }
      LogIn(s, m.text.clientId, m.text.cliPub, env);
    }

    /** The message must name this very handshake and carry its own key's signature. */
    method Fits(s: PeerSession, m: IdentityMsg) returns (ok: bool)
      requires Valid()
      ensures Valid() && View() == old(View()) && s.View() == old(s.View())
      ensures ok == IdentityHolds(s.View(), m)
    {
      s.Parts();
      if !m.text.IdentityText? {
        return false;
      }
      if Some(m.text.nonceC) != s.nonceC || Some(m.text.nonceS) != s.nonceS
         || Some(m.text.dhCli) != s.dhCli || Some(m.text.dhSrv) != s.dhSrv {
        return false;
      }
      return Verifies(m.text.cliPub, m.text, m.sig);
    }

    // ---- any frame -------------------------------------------------------------------------

    /** A packet enters the tunnel only from the address bound to the session. */
    method HandleData(s: PeerSession, src: Option<nat>, env: Env)
      requires Valid() && Has(s)
      modifies this`sessions, this`vipToKey, this`uplinks, s, pool
      ensures Valid() && View() == ServerSpec.HandleData(old(View()), s.key, src, env)
    {
      hide View, Valid, PeerSession.View, PeerSession.Live, Release;
      Lookup(s.key);
      s.Parts();
      if !s.authenticated {
        return;
      }
      if src.None? || !s.ipAssigned || src.value != s.vip {
        return;
      }
      if env.svcCuts {
        ReleaseSession(s.key);
        return;
      }
      if env.svcDrops {
        return;
      }
      uplinks := uplinks + [Uplink(s.key, src.value)];
      Rest();
    }

    method HandleInner(s: PeerSession, inner: Inner, env: Env)
      requires Valid() && Has(s)
      modifies this, sessions.Values, pool
      ensures Valid() && View() == ServerSpec.HandleInner(old(View()), s.key, inner, env)
    {
      hide View, Valid, PeerSession.View, PeerSession.Live, ServerSpec.HandleIdentity, ServerSpec.HandleData, Send, Release;
      Lookup(s.key);
      match inner {
        case InData(src) => HandleData(s, src, env);
        case InHeart =>
          var _ := SendPacket(s, MHeartResponse, InHeartResponse, Junk, env.sendOk);
        case InIdentity(msg) => HandleIdentity(s, msg, env);
        case InDisconnect =>
          if s.key.tcp {
            s.AskDrop();
            OnlySession(s.key);
          } else {
            ReleaseSession(s.key);
          }
        case _ =>
      }
    }

    /** Check the number without commitment, open the frame, commit the number. */
    method HandleSealed(s: PeerSession, f: Frame, env: Env)
      requires Valid() && Has(s) && f.hdr.seqNo < SEQ_LIMIT
      modifies this, sessions.Values, s.replay, pool
      ensures Valid() && View() == ServerSpec.HandleSealed(old(View()), s.key, f, env)
    {
      hide View, Valid, PeerSession.View, ServerSpec.HandleInner, Unseal;
      Lookup(s.key);
      s.Parts();
      if !s.encReady {
        return;
      }
      var tooOld := s.replay.TooOld(f.hdr.seqNo);
      Rest();
      if tooOld {
        return;
      }
      var plain := Unseal(s.keyC2S, f);
      if plain.None? {
        return;
      }
      var ok := s.Offer(f.hdr.seqNo);
      OnlySession(s.key);
      SameOffer(old(View()), s.key, f.hdr.seqNo, ok);
      if !ok {
        return;
      }
      HandleInner(s, plain.value, env);
    }

    /** One complete message. A released session ignores everything. */
    method HandleFramed(s: PeerSession, f: Frame, env: Env)
      requires Valid() && (s.released || Has(s)) && f.hdr.seqNo < SEQ_LIMIT
      requires env.now > 0 && Sound(limiter.m_hs_rl, env.now)
      modifies this, s, sessions.Values, s.replay, pool, limiter
      ensures Valid()
      ensures View() == if old(s.released) then old(View()) else ServerSpec.HandleFramed(old(View()), s.key, f, env)
      ensures !old(s.released) && Inv(old(View())) && EnvFresh(old(View()), env) ==> Inv(View())
    {
      hide View, Valid, Inv, PeerSession.View, ServerSpec.HandleSealed, ServerSpec.HandleAuthHello, HandleClientHello;
      if s.released {
        return;
      }
      Lookup(s.key);
      if Inv(View()) && EnvFresh(View(), env) {
        FramedKeeps(View(), s.key, f, env);
      }
      if f.hdr.version != (if s.key.tcp then V_TCP else V_UDP) {
        return;
      }
      if SealedType(f.hdr.typ) {
        HandleSealed(s, f, env);
        return;
      }
      if f.payload.Sealed? {
        return;
      }
      match f.hdr.typ {
        case MAuthHello => HandleAuthHello(s, f.payload.clear, env);
        case MClientHello => HandleAuthClientHello(s, f.payload.clear, env);
        case _ =>
      }
    }

    // ---- the table -------------------------------------------------------------------------------

    method CountPending() returns (n: nat)
      requires Valid()
      ensures Valid() && View() == old(View()) && n == |Pending(View())|
    {
      hide PeerSession.View, PeerSession.Live, View, Valid;
      ghost var seen: set<PeerKey> := {};
      var todo := sessions.Keys;
      n := 0;
      while todo != {}
        invariant todo <= sessions.Keys
        invariant seen == set k | k in sessions.Keys - todo && !sessions[k].handshaked
        invariant n == |seen|
        decreases todo
      {
        var k :| k in todo;
        todo := todo - {k};
        if !sessions[k].handshaked {
          seen := seen + {k};
          n := n + 1;
        }
      }
      PendingIs(seen);
    }

    lemma PendingIs(seen: set<PeerKey>)
      requires Valid() && seen == set k | k in sessions.Keys && !sessions[k].handshaked
      ensures seen == Pending(View())
    {
      forall k | k in sessions
        ensures View().sessions[k].handshaked == sessions[k].handshaked
      {
        Lookup(k);
        sessions[k].Parts();
      }
      Lookup(PeerKey(0, 0, false));
    }

    /** Count the sessions of one source and find its oldest unauthenticated one. */
    method ScanSource(ip: nat) returns (n: nat, victim: Option<PeerKey>)
      requires Valid()
      ensures Valid() && View() == old(View())
      ensures n == |FromIp(View(), ip)| && VictimOk(View(), ip, victim)
    {
      hide PeerSession.View, PeerSession.Live, View, Valid;
      ghost var seen: set<PeerKey> := {};
      var todo := sessions.Keys;
      n, victim := 0, None;
      while todo != {}
        invariant todo <= sessions.Keys
        invariant seen == set k | k in sessions.Keys - todo && k.ip == ip
        invariant n == |seen|
        invariant victim.None? ==> forall k :: k in seen ==> sessions[k].handshaked
        invariant victim.Some? ==> victim.value in seen && !sessions[victim.value].handshaked
        invariant victim.Some? ==>
          forall k :: k in seen && !sessions[k].handshaked ==> sessions[victim.value].createdAt <= sessions[k].createdAt
        decreases todo
      {
        var k :| k in todo;
        todo := todo - {k};
        if k.ip == ip {
          seen := seen + {k};
          n := n + 1;
          if !sessions[k].handshaked && (victim.None? || sessions[k].createdAt < sessions[victim.value].createdAt) {
            victim := Some(k);
          }
        }
      }
      SourceIs(ip, seen, victim);
    }

    lemma SourceIs(ip: nat, seen: set<PeerKey>, victim: Option<PeerKey>)
      requires Valid() && seen == set k | k in sessions.Keys && k.ip == ip
      requires victim.None? ==> forall k :: k in seen ==> sessions[k].handshaked
      requires victim.Some? ==> victim.value in seen && !sessions[victim.value].handshaked
      requires victim.Some? ==>
                 forall k :: k in seen && !sessions[k].handshaked ==> sessions[victim.value].createdAt <= sessions[k].createdAt
      ensures seen == FromIp(View(), ip) && VictimOk(View(), ip, victim)
    {
      forall k | k in sessions
        ensures View().sessions[k].handshaked == sessions[k].handshaked && View().sessions[k].createdAt == sessions[k].createdAt
      {
        Lookup(k);
        sessions[k].Parts();
      }
      Lookup(PeerKey(0, 0, false));
      hide View, Valid;
    }

    /** The session of this peer, made now if the limits allow it. At its limit a
        source loses its oldest unauthenticated session. */
    method GetOrCreateSession(k: PeerKey, now: int) returns (s: PeerSession?, ghost victim: Option<PeerKey>)
      requires Valid()
      modifies this`sessions, this`vipToKey, sessions.Values, pool
      ensures Valid() && VictimOk(old(View()), k.ip, victim)
      ensures View() == GetOrCreate(old(View()), k, now, victim)
      ensures s != null <==> k in sessions
      ensures s != null ==> Has(s) && s.key == k
      ensures Inv(old(View())) ==> Inv(View())
    {
      hide View, Valid, Inv, PeerSession.View, PeerSession.Live, Pending, FromIp, VictimOk, NewSession, GetOrCreate, Room;
      Lookup(k);
      victim := SomeVictim(View(), k.ip);
      AdmitIs(View(), k, now, victim);
      if k in sessions {
        return sessions[k], victim;
      }
      var pending := CountPending();
      Lookup(k);
      if pending >= MAX_PENDING {
        return null, victim;
      }
      var perIp, oldest := ScanSource(k.ip);
      victim := oldest;
      AdmitIs(View(), k, now, victim);
      Lookup(k);
      if perIp >= MAX_PER_IP && oldest.None? {
        return null, victim;
      }
      MakeRoom(k, perIp, oldest);
      s := Enter(k, now);
    }

    method MakeRoom(k: PeerKey, perIp: nat, oldest: Option<PeerKey>)
      requires Valid() && k !in sessions && perIp == |FromIp(View(), k.ip)| && VictimOk(View(), k.ip, oldest)
      modifies this`sessions, this`vipToKey, sessions.Values, pool
      ensures Valid() && k !in sessions && View() == Room(old(View()), k.ip, oldest)
    {
      hide View, Valid, PeerSession.View, PeerSession.Live, FromIp, VictimOk, Release;
      if perIp >= MAX_PER_IP && oldest.Some? {
        VictimIsThere(View(), k.ip, oldest.value);
        Lookup(oldest.value);
        ReleaseSession(oldest.value);
      }
    }

    /** Make and file a session, unless the table is full. */
    method Enter(k: PeerKey, now: int) returns (s: PeerSession?)
      requires Valid() && k !in sessions
      modifies this`sessions
      ensures Valid()
      ensures View() == if |old(View()).sessions| >= old(View()).cfg.maxClients then old(View()) else Put(old(View()), k, NewSession(now))
      ensures if |old(View()).sessions| >= old(View()).cfg.maxClients then s == null && sessions == old(sessions)
              else s != null && s.key == k && Has(s) && sessions.Keys == old(sessions).Keys + {k}
    {
      hide View, Valid, PeerSession.View, PeerSession.Live, NewSession;
      Lookup(k);
      MapCount(sessions);
      MapCount(View().sessions);
      if |sessions| >= cfg.maxClients {
        return null;
      }
      s := new PeerSession(k, now);
      sessions := sessions[k := s];
      Added(k);
    }

    /** The state after a new session entered the table. */
    twostate lemma Added(k: PeerKey)
      requires old(Valid()) && k !in old(sessions) && k in sessions && sessions == old(sessions)[k := sessions[k]]
      requires fresh(sessions[k]) && fresh(sessions[k].replay) && sessions[k].key == k && sessions[k].Live()
      requires forall l :: l in old(sessions) ==> unchanged(old(sessions)[l]) && unchanged(old(sessions)[l].replay)
      ensures Valid()
      ensures View() == Server(cfg, old(View()).sessions[k := sessions[k].View()], vipToKey, pool.View(), lastVip, limiter.m_hs_rl,
                               clients, tokens, out, uplinks, bindings, issued, spent)
    {
      hide PeerSession.View, PeerSession.Live, View, Valid, Sessions;
      AddedTable(k);
      assert Sessions() == old(Sessions())[k := sessions[k].View()];
      AddedView(k);
    }

    twostate lemma AddedTable(k: PeerKey)
      requires old(Valid()) && k !in old(sessions) && k in sessions && sessions == old(sessions)[k := sessions[k]]
      requires fresh(sessions[k]) && fresh(sessions[k].replay) && sessions[k].key == k && sessions[k].Live()
      requires forall l :: l in old(sessions) ==> unchanged(old(sessions)[l]) && unchanged(old(sessions)[l].replay)
      ensures Valid()
      ensures Sessions().Keys == sessions.Keys && old(Sessions()).Keys == old(sessions).Keys
      ensures forall l :: l in sessions ==> Sessions()[l] == (if l == k then sessions[k].View() else old(Sessions())[l])
    {
      hide PeerSession.View, PeerSession.Live;
      forall l | l in sessions && l != k
        ensures sessions[l].View() == old(sessions[l].View()) && sessions[l].Live() == old(sessions[l].Live())
      {
        assert sessions[l] == old(sessions)[l];
        Untouched(sessions[l]);
      }
    }

    twostate lemma AddedView(k: PeerKey)
      requires k in sessions && Sessions() == old(Sessions())[k := sessions[k].View()]
      ensures View() == Server(cfg, old(View()).sessions[k := sessions[k].View()], vipToKey, pool.View(), lastVip, limiter.m_hs_rl,
                               clients, tokens, out, uplinks, bindings, issued, spent)
    {
      hide PeerSession.View, Sessions;
    }

    lemma VictimIsThere(st: Server, ip: nat, v: PeerKey)
      requires VictimOk(st, ip, Some(v))
      ensures v in st.sessions
    {
    }

    /** The session a packet from the TUN device goes to. */
    method ForwardTunPacket(dst: nat) returns (to: Option<PeerKey>)
      requires Valid()
      ensures to == Route(View(), dst)
    {
      hide View, Valid, PeerSession.View, PeerSession.Live;
      if dst !in vipToKey {
        Lookup(PeerKey(0, 0, false));
        return None;
      }
      var k := vipToKey[dst];
      Lookup(k);
      if k !in sessions {
        return None;
      }
      sessions[k].Parts();
      if !sessions[k].authenticated {
        return None;
      }
      return Some(k);
    }
  }

  /** A source has an oldest unauthenticated session, or none. */
  lemma SomeVictim(st: Server, ip: nat) returns (v: Option<PeerKey>)
    ensures VictimOk(st, ip, v)
  {
    var waiting := FromIp(st, ip) * Pending(st);
    if waiting == {} {
      v := None;
    } else {
      var k := Oldest(st, waiting);
      v := Some(k);
    }
  }

  lemma Oldest(st: Server, ks: set<PeerKey>) returns (v: PeerKey)
    requires ks != {} && ks <= st.sessions.Keys
    ensures v in ks && forall k :: k in ks ==> st.sessions[v].createdAt <= st.sessions[k].createdAt
    decreases ks
  {
    var k :| k in ks;
    v := k;
    if ks - {k} != {} {
      var u := Oldest(st, ks - {k});
      if st.sessions[u].createdAt < st.sessions[k].createdAt {
        v := u;
      }
    }
    assert forall l :: l in ks ==> l == k || l in ks - {k};
  }

  /** Admission, case by case. */
  lemma AdmitIs(st: Server, k: PeerKey, now: int, victim: Option<PeerKey>)
    requires VictimOk(st, k.ip, victim)
    ensures var u := GetOrCreate(st, k, now, victim);
            var room := Room(st, k.ip, victim);
            if k in st.sessions || |Pending(st)| >= MAX_PENDING then u == st
            else if |FromIp(st, k.ip)| >= MAX_PER_IP && victim.None? then u == st
            else u == if |room.sessions| >= room.cfg.maxClients then room else Put(room, k, NewSession(now))
    ensures Inv(st) ==> Inv(GetOrCreate(st, k, now, victim))
  {
    if Inv(st) {
      AdmitKeeps(st, k, now, victim) by { hide Inv, GetOrCreate; }
    }
    assert Room(st, k.ip, victim).cfg == st.cfg by { RoomConfig(st, k.ip, victim); }
    hide Inv, Room, NewSession, Pending, FromIp, VictimOk;
    assert victim.None? ==> Room(st, k.ip, victim) == st by { NoRoom(st, k.ip); }
  }

  lemma RoomConfig(st: Server, ip: nat, victim: Option<PeerKey>)
    ensures Room(st, ip, victim).cfg == st.cfg
  {
    if victim.Some? {
      ReleaseFields(st, victim.value);
    }
  }

  lemma NoRoom(st: Server, ip: nat)
    ensures Room(st, ip, None) == st
  {
  }

  lemma SameOffer(st: Server, k: PeerKey, n: nat, ok: bool)
    requires k in st.sessions
    ensures var s := st.sessions[k];
            !s.replay.Accepts(n) ==> s.(replay := s.replay.Offer(n)) == s && Put(st, k, s) == st
  {
    PutSame(st, k);
  }

  lemma ReleaseNone(st: Server)
    ensures ReleaseAll(st, {}) == st
  {
    assert Addresses(st, {}) == {};
    assert st.sessions - {} == st.sessions && st.vipToKey - {} == st.vipToKey && st.pool.used - {} == st.pool.used;
  }

  lemma ReleaseNext(st: Server, ks: set<PeerKey>, v: PeerKey)
    requires v in st.sessions && v !in ks
    ensures Release(ReleaseAll(st, ks), v) == ReleaseAll(st, ks + {v})
  {
    var s := st.sessions[v];
    if s.ipAssigned && s.vip != 0 {
      assert Addresses(st, ks + {v}) == Addresses(st, ks) + {s.vip};
    } else {
      assert Addresses(st, ks + {v}) == Addresses(st, ks);
    }
    assert st.sessions - ks - {v} == st.sessions - (ks + {v});
    var ips := Addresses(st, ks);
    assert st.vipToKey - ips - {s.vip} == st.vipToKey - (ips + {s.vip});
    assert st.pool.used - ips - {s.vip} == st.pool.used - (ips + {s.vip});
  }

  function Reply(signKey: SigKey, nonceC: Nonce, nonceS: Nonce, dhSrv: Pub): Clear
  {
    ServerHello(nonceS, dhSrv, Signature(signKey, HelloText(nonceC, nonceS, dhSrv)))
  }

  lemma HelloCases(st: Server, k: PeerKey, signKey: SigKey, env: Env)
    requires k in st.sessions
    requires var s := st.sessions[k]; s.nonceC.Some? && s.nonceS.Some? && s.dhSrv.Some?
    ensures var s := st.sessions[k];
            var u := ServerSpec.SendServerHello(st, k, signKey, env);
            if s.hello.Some? then u == Send(st, k, MServerHello, InOther, s.hello.value, env.sendOk).st
            else if !env.signOk then u == st
            else
              var reply := Reply(signKey, s.nonceC.value, s.nonceS.value, s.dhSrv.value);
              u == Send(Put(st, k, s.(hello := Some(reply))), k, MServerHello, InOther, reply, env.sendOk).st
  {
    PutSame(st, k);
    hide Send;
  }

  lemma PutSame(st: Server, k: PeerKey)
    requires k in st.sessions
    ensures Put(st, k, st.sessions[k]) == st
  {
    assert st.sessions[k := st.sessions[k]] == st.sessions;
  }
}
