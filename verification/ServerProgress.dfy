/** What the server does when it should: the exact conditions under which a session
    derives its keys, logs in and lets a packet through, and what its peer is told. */
module ServerProgress {
  import opened Text
  import opened Replay
  import opened Protocol
  import opened VipPool
  import opened RateLimiters
  import opened ServerSpec
  import opened ServerInv
  import opened ServerSteps
  import opened ServerMoves
  import opened ServerRuns

  function Version(k: PeerKey): nat
  {
    if k.tcp then V_TCP else V_UDP
  }

  // ---- taking in and sending -----------------------------------------------------------

  /** What a sealed frame says to a session: it opens under the session's key and its
      number is one the window accepts. */
  function Says(st: Server, k: PeerKey, f: Frame): Option<Inner>
    requires k in st.sessions
  {
    var s := st.sessions[k];
    if f.hdr.version == Version(k) && SealedType(f.hdr.typ) && s.encReady && s.replay.Accepts(f.hdr.seqNo)
    then Unseal(s.keyC2S, f) else None
  }

  /** The session with the frame's number in its window. */
  function Counting(st: Server, k: PeerKey, f: Frame): Server
    requires k in st.sessions
  {
    Put(st, k, st.sessions[k].(replay := st.sessions[k].replay.Offer(f.hdr.seqNo)))
  }

  lemma SealedIs(st: Server, k: PeerKey, f: Frame, env: Env)
    requires k in st.sessions
    ensures Says(st, k, f).Some? ==> HandleFramed(st, k, f, env) == HandleInner(Counting(st, k, f), k, Says(st, k, f).value, env)
    ensures Says(st, k, f).None? && SealedType(f.hdr.typ) ==> HandleFramed(st, k, f, env) == st
  {
    hide HandleInner, Unseal;
  }

  /** A frame the server seals for a session. */
  function SealedFor(s: Session, k: PeerKey, typ: MsgType, inner: Inner): Frame
    requires s.keyS2C.Some?
  {
    Frame(Header(Version(k), typ, s.seqNo), Sealed(s.keyS2C.value, Header(Version(k), typ, s.seqNo), inner))
  }

  /** Below the re-key limit a sealed frame is handed over whenever the socket takes it. */
  lemma SealedGoesOut(st: Server, k: PeerKey, typ: MsgType, inner: Inner)
    requires k in st.sessions && ServerSeals(typ)
    requires var s := st.sessions[k]; s.encReady && s.keyS2C.Some? && s.seqNo < SEQ_REKEY_LIMIT
    ensures SendSealed(st, k, typ, inner, true)
            == Put(st, k, Numbered(st.sessions[k])).(out := st.out + [Sent(k, SealedFor(st.sessions[k], k, typ, inner))])
  {
  }

  lemma ClearGoesOut(st: Server, k: PeerKey, typ: MsgType, clear: Clear)
    requires k in st.sessions && !ServerSeals(typ) && st.sessions[k].seqNo < SEQ_REKEY_LIMIT
    ensures Send(st, k, typ, InOther, clear, true).st
            == Put(st, k, Numbered(st.sessions[k])).(out := st.out + [Sent(k, Frame(Header(Version(k), typ, st.sessions[k].seqNo), Open(clear)))])
  {
  }

  /** The last frame handed over, with nothing else sent. */
  predicate Told(st: Server, u: Server, k: PeerKey, f: Frame)
  {
    u.out == st.out + [Sent(k, f)]
  }

  // ---- admission -----------------------------------------------------------------------

  /** A new source is let in exactly when fewer than 32 handshakes are pending, its
      address has fewer than 8 sessions or one of them is unauthenticated and makes
      room, and a place is left. */
  lemma AdmittedIff(st: Server, k: PeerKey, env: Env)
    requires Inv(st) && VictimOk(st, k.ip, env.victim) && k !in st.sessions
    ensures var u := Step(st, Admit(k, env));
            var evicts := |FromIp(st, k.ip)| >= MAX_PER_IP && FromIp(st, k.ip) * Pending(st) != {};
            && (k in u.sessions <==>
                  && |Pending(st)| < 32
                  && (|FromIp(st, k.ip)| < 8 || FromIp(st, k.ip) * Pending(st) != {})
                  && |st.sessions| - (if evicts then 1 else 0) < st.cfg.maxClients)
            && (k in u.sessions ==> u.sessions[k] == NewSession(env.now))
  {
    hide Inv, NewSession, Release;
    RoomSize(st, k, env.victim);
    VictimIs(st, k.ip, env.victim);
    hide OldestPending, VictimOk, FromIp, Pending, Room;
  }

  lemma VictimIs(st: Server, ip: nat, victim: Option<PeerKey>)
    requires VictimOk(st, ip, victim)
    ensures victim.Some? <==> FromIp(st, ip) * Pending(st) != {}
    ensures victim.Some? ==> victim.value in st.sessions && victim.value.ip == ip
  {
    if victim.Some? {
      assert victim.value in FromIp(st, ip) * Pending(st);
    }
  }

  lemma RoomSize(st: Server, k: PeerKey, victim: Option<PeerKey>)
    requires VictimOk(st, k.ip, victim) && k !in st.sessions
    ensures var u := Room(st, k.ip, victim);
            && u.cfg == st.cfg && k !in u.sessions
            && |u.sessions| == |st.sessions| - if |FromIp(st, k.ip)| >= MAX_PER_IP && victim.Some? then 1 else 0
  {
    VictimIs(st, k.ip, victim);
    if victim.Some? {
      var v := victim.value;
      ReleaseFields(st, v);
      assert st.sessions == (st.sessions - {v})[v := st.sessions[v]];
    }
    hide Release, FromIp, OldestPending;
  }

  // ---- the first two stages ------------------------------------------------------------

  /** A hello that is no retransmission and that keys already derived do not forbid. */
  predicate Begins(s: Session, nonceC: Nonce)
  {
    && !s.stage.Authed?
    && !(s.nonceC == Some(nonceC) && s.dhPriv.Some?)
    && (s.stage.KeysReady? ==> s.nonceC == Some(nonceC))
  }

  function ReplyTo(signKey: SigKey, nonceC: Nonce, nonceS: Nonce, e: Priv): Clear
  {
    ServerHello(nonceS, Pub(e), Signature(signKey, HelloText(nonceC, nonceS, Pub(e))))
  }

  /** With a token left, an ephemeral key and a signature, such a hello is answered: the
      reply is signed over both nonces and the new key, and the session holds them. */
  lemma HelloIsAnswered(st: Server, k: PeerKey, f: Frame, env: Env, nonceC: Nonce)
    requires Inv(st) && k in st.sessions && st.cfg.signKey.Some?
    requires f.hdr.version == Version(k) && f.hdr.typ.MAuthHello? && f.payload == Open(Hello(nonceC))
    requires Begins(st.sessions[k], nonceC) && Allow(st.hsRl, k.ip, env.now).granted
    requires env.ephemeral.Some? && env.signOk && env.sendOk && st.sessions[k].seqNo < SEQ_REKEY_LIMIT
    ensures var u, s := HandleFramed(st, k, f, env), st.sessions[k];
            var e := env.ephemeral.value;
            var reply := ReplyTo(st.cfg.signKey.value, nonceC, env.nonceS, e);
            && k in u.sessions && Told(st, u, k, Frame(Header(Version(k), MServerHello, s.seqNo), Open(reply)))
            && var t := u.sessions[k];
               && t.stage.HelloSent? && t.nonceC == Some(nonceC) && t.nonceS == Some(env.nonceS)
               && t.dhSrv == Some(Pub(e)) && t.dhPriv == Some(e) && t.hello == Some(reply) && t.seqNo == s.seqNo + 1
               && t == Restarted(s, nonceC, env.nonceS).(dhSrv := t.dhSrv, dhPriv := t.dhPriv, hello := t.hello, seqNo := t.seqNo)
               && u == Put(st, k, t).(hsRl := u.hsRl, issued := st.issued + {e}, out := u.out)
  {
    StageOf(st, k);
    hide Inv, HelloCacheOk, Allow, SendServerHello;
    var s, e := st.sessions[k], env.ephemeral.value;
    var charged := st.(hsRl := Allow(st.hsRl, k.ip, env.now).table);
    var t := Restarted(s, nonceC, env.nonceS).(dhPriv := Some(e), dhSrv := Some(Pub(e)));
    var keyed := Put(charged, k, t).(issued := st.issued + {e});
    var reply := ReplyTo(st.cfg.signKey.value, nonceC, env.nonceS, e);
    HelloBegins(st, k, env, nonceC);
    HelloRoutes(st, k, f, env);
    hide HandleFramed, StageOk, HandleAuthHello, Begins;
    FirstReply(keyed, k, t, st.cfg.signKey.value, nonceC, e, env);
    PutTwice(charged, k, t, t.(hello := Some(reply), seqNo := t.seqNo + 1), st.issued + {e});
  }

  lemma HelloRoutes(st: Server, k: PeerKey, f: Frame, env: Env)
    requires k in st.sessions && f.hdr.version == Version(k) && f.hdr.typ.MAuthHello? && f.payload.Open?
    ensures HandleFramed(st, k, f, env) == HandleAuthHello(st, k, f.payload.clear, env)
  {
    hide HandleAuthHello;
  }

  lemma HelloBegins(st: Server, k: PeerKey, env: Env, nonceC: Nonce)
    requires k in st.sessions && st.cfg.signKey.Some? && StageOk(st.sessions[k])
    requires Begins(st.sessions[k], nonceC) && Allow(st.hsRl, k.ip, env.now).granted && env.ephemeral.Some?
    ensures var e := env.ephemeral.value;
            var t := Restarted(st.sessions[k], nonceC, env.nonceS).(dhPriv := Some(e), dhSrv := Some(Pub(e)));
            var keyed := Put(st.(hsRl := Allow(st.hsRl, k.ip, env.now).table), k, t).(issued := st.issued + {e});
            HandleAuthHello(st, k, Hello(nonceC), env) == SendServerHello(keyed, k, st.cfg.signKey.value, env)
  {
    hide Allow, SendServerHello;
  }

  lemma FirstReply(st: Server, k: PeerKey, t: Session, signKey: SigKey, nonceC: Nonce, e: Priv, env: Env)
    requires k in st.sessions && st.sessions[k] == t && env.signOk && env.sendOk && t.seqNo < SEQ_REKEY_LIMIT
    requires t.hello.None? && t.nonceC == Some(nonceC) && t.nonceS == Some(env.nonceS) && t.dhSrv == Some(Pub(e))
    ensures var reply := ReplyTo(signKey, nonceC, env.nonceS, e);
            SendServerHello(st, k, signKey, env)
            == Put(st, k, t.(hello := Some(reply), seqNo := t.seqNo + 1)).(out := st.out + [Sent(k, Frame(Header(Version(k), MServerHello, t.seqNo), Open(reply)))])
  {
    var reply := ReplyTo(signKey, nonceC, env.nonceS, e);
    var cached := t.(hello := Some(reply));
    ClearGoesOut(Put(st, k, cached), k, MServerHello, reply);
    assert HelloReply(signKey, t) == reply;
    hide Send;
    assert Put(Put(st, k, cached), k, Numbered(cached)) == Put(st, k, Numbered(cached));
  }

  lemma PutTwice(st: Server, k: PeerKey, t: Session, v: Session, issued: set<Priv>)
    ensures Put(Put(st, k, t).(issued := issued), k, v) == Put(st, k, v).(issued := issued)
  {
    assert st.sessions[k := t][k := v] == st.sessions[k := v];
  }

  /** A client key that arrives while the session holds its private key, and that the
      key agreement accepts. */
  predicate Agrees(s: Session, k: PeerKey, f: Frame, env: Env)
  {
    && f.hdr.version == Version(k) && f.hdr.typ.MClientHello? && f.payload.Open? && f.payload.clear.ClientHello?
    && s.stage.HelloSent? && s.dhPriv.Some? && env.dhOk
  }

  /** The keys both ends derive from a secret. */
  function KeyFor(dir: Direction, dhCli: Pub, dhSrv: Pub, nonceC: Nonce, nonceS: Nonce): SessionKey
  {
    SessionKey(dir, Shared({dhCli, dhSrv}), nonceC, nonceS)
  }

  /** Exactly then a session without keys gets them: one for each direction, over both
      public keys and both nonces; the private key is used up. */
  lemma KeysIff(st: Server, k: PeerKey, f: Frame, env: Env)
    requires Inv(st) && k in st.sessions && EnvFresh(st, env) && !st.sessions[k].encReady
    ensures var u, s := HandleFramed(st, k, f, env), st.sessions[k];
            && (k in u.sessions && u.sessions[k].encReady <==> Agrees(s, k, f, env))
            && (Agrees(s, k, f, env) ==>
                  s.dhPriv.Some? && s.nonceC.Some? && s.nonceS.Some? && f.payload.Open? && f.payload.clear.ClientHello?
                  && var p, e := f.payload.clear.dhCli, s.dhPriv.value;
                     u == Put(st, k, s.(stage := KeysReady, encReady := true, dhPriv := None, dhCli := Some(p),
                                        keyC2S := Some(KeyFor(Tx, p, Pub(e), s.nonceC.value, s.nonceS.value)),
                                        keyS2C := Some(KeyFor(Rx, p, Pub(e), s.nonceC.value, s.nonceS.value)))).(spent := st.spent + [e]))
  {
    StageOf(st, k);
    SealedIs(st, k, f, env);
    hide Inv, HelloCacheOk;
    if f.hdr.version == Version(k) && f.payload.Open? && f.hdr.typ.MAuthHello? {
      HelloRoutes(st, k, f, env);
      NoKeysByHello(st, k, f.payload.clear, env);
    } else if f.hdr.version == Version(k) && f.payload.Open? && f.hdr.typ.MClientHello? {
      KeysByClientHello(st, k, f.payload.clear, env);
    }
    hide HandleAuthHello, HandleInner, HandleClientHello, HandleSealed;
  }

  lemma KeysByClientHello(st: Server, k: PeerKey, p: Clear, env: Env)
    requires k in st.sessions && !st.sessions[k].encReady && StageOk(st.sessions[k])
    ensures var u, s := HandleClientHello(st, k, p, env), st.sessions[k];
            && (k in u.sessions && u.sessions[k].encReady <==> p.ClientHello? && s.stage.HelloSent? && s.dhPriv.Some? && env.dhOk)
            && (p.ClientHello? && s.stage.HelloSent? && s.dhPriv.Some? && env.dhOk ==>
                  s.nonceC.Some? && s.nonceS.Some?
                  && var e := s.dhPriv.value;
                     u == Put(st, k, s.(stage := KeysReady, encReady := true, dhPriv := None, dhCli := Some(p.dhCli),
                                        keyC2S := Some(KeyFor(Tx, p.dhCli, Pub(e), s.nonceC.value, s.nonceS.value)),
                                        keyS2C := Some(KeyFor(Rx, p.dhCli, Pub(e), s.nonceC.value, s.nonceS.value)))).(spent := st.spent + [e]))
  {
    var s := st.sessions[k];
    if p.ClientHello? && s.dhPriv.Some? {
      assert {p.dhCli, Pub(s.dhPriv.value)} == {Pub(s.dhPriv.value), p.dhCli};
    }
  }

  lemma NoKeysByHello(st: Server, k: PeerKey, p: Clear, env: Env)
    requires Inv(st) && k in st.sessions && EnvFresh(st, env) && !st.sessions[k].encReady
    ensures var u := HandleAuthHello(st, k, p, env);
            k in u.sessions ==> !u.sessions[k].encReady
  {
    hide Inv, HandleAuthHello;
    var mv, t := HelloEffect(st, k, p, env);
  }

  // ---- the identity stage --------------------------------------------------------------

  /** The registration files let this identity in: its key is on file, or it pays with a
      token and both files can be written. */
  predicate Admissible(st: Server, m: IdentityMsg, env: Env)
    requires m.text.IdentityText?
  {
    if m.flags == 1 then m.token != "" && m.token in st.tokens && env.tokenFileOk && env.clientFileOk
    else m.text.cliPub in st.clients
  }

  /** A host address that is free, or freed when the other sessions of this key end. */
  ghost predicate FreeFor(st: Server, k: PeerKey, cliPub: SigKey, ip: nat)
  {
    && st.pool.Host(ip)
    && (ip in st.pool.used ==>
          exists v :: v in st.sessions && v != k && st.sessions[v].cliPub == Some(cliPub)
                      && st.sessions[v].ipAssigned && st.sessions[v].vip == ip)
  }

  /** There is one to give, or the client's leased one is. */
  ghost predicate Placeable(st: Server, k: PeerKey, m: IdentityMsg)
    requires m.text.IdentityText?
  {
    || (!st.pool.Empty() && exists ip :: FreeFor(st, k, m.text.cliPub, ip))
    || (m.text.clientId != "" && m.text.clientId in st.lastVip && FreeFor(st, k, m.text.cliPub, st.lastVip[m.text.clientId]))
  }

  /** The reason a client is given when its identity is not accepted: 1 when it has no
      token to pay with, 2 when the service refuses it, else 0. */
  function Reason(s: Session, st: Server, msg: Option<IdentityMsg>, env: Env): nat
  {
    if msg.None? || !IdentityHolds(s, msg.value) then 0
    else if msg.value.flags == 1 && !Admissible(st, msg.value, env) then 1
    else if Admissible(st, msg.value, env) && env.svcRefuses then 2
    else 0
  }

  ghost predicate Accepted(st: Server, k: PeerKey, msg: Option<IdentityMsg>, env: Env)
    requires k in st.sessions
  {
    && msg.Some? && IdentityHolds(st.sessions[k], msg.value) && Admissible(st, msg.value, env)
    && !env.svcRefuses && Placeable(st, k, msg.value)
  }

  /** What a login leaves: the session logged in at ip under the message's names, every
      other session as it was but for those of its key, which are gone. */
  ghost predicate LoggedIn(st: Server, k: PeerKey, u: Server, m: IdentityMsg, ip: nat, env: Env)
    requires k in st.sessions && m.text.IdentityText?
  {
    var s := st.sessions[k];
    var b := Binding(k, s.nonceC, s.nonceS, s.dhCli, s.dhSrv, s.keyC2S, s.keyS2C, m.text.clientId, Some(m.text.cliPub), ip, st.cfg.prefix);
    && FreeFor(st, k, m.text.cliPub, ip) && u.bindings == st.bindings + {b}
    && (m.text.clientId != "" ==> m.text.clientId in u.lastVip && u.lastVip[m.text.clientId] == ip)
    && (forall v :: v in st.sessions && v != k ==> (v in u.sessions <==> st.sessions[v].cliPub != Some(m.text.cliPub)))
    && (k.tcp || s.seqNo < SEQ_REKEY_LIMIT ==>
          k in u.sessions && u.sessions[k].stage.Authed? && u.sessions[k].authenticated && u.sessions[k].handshaked
          && u.sessions[k].vip == ip && u.sessions[k].clientId == m.text.clientId && u.sessions[k].cliPub == Some(m.text.cliPub)
          && Route(u, ip) == Some(k))
    && (env.sendOk && s.seqNo < SEQ_REKEY_LIMIT ==>
          s.keyS2C.Some? && Told(st, u, k, SealedFor(s, k, MIdentityOk, InIdentityOk(ip, st.cfg.prefix))))
  }

  /** Nobody is logged in, and the client is told why. */
  ghost predicate Refused(st: Server, k: PeerKey, u: Server, reason: nat, env: Env)
    requires k in st.sessions
  {
    var s := st.sessions[k];
    && u.bindings == st.bindings
    && (k in u.sessions ==> !u.sessions[k].authenticated)
    && (env.sendOk && s.seqNo < SEQ_REKEY_LIMIT ==>
          k in u.sessions && s.keyS2C.Some? && Told(st, u, k, SealedFor(s, k, MIdentityDeny, InIdentityDeny(reason))))
  }

  // ---- refusing --------------------------------------------------------------------------

  lemma DenyTells(st: Server, k: PeerKey, reason: nat, sendOk: bool)
    requires k in st.sessions && st.sessions[k].encReady && st.sessions[k].keyS2C.Some?
    ensures var u, s := Deny(st, k, reason, sendOk), st.sessions[k];
            && u.bindings == st.bindings && (k in u.sessions ==> !u.sessions[k].authenticated)
            && (sendOk && s.seqNo < SEQ_REKEY_LIMIT ==>
                  k in u.sessions && Told(st, u, k, SealedFor(s, k, MIdentityDeny, InIdentityDeny(reason))))
  {
    hide Send;
    SendFields(st, k, MIdentityDeny, InIdentityDeny(reason), Junk, sendOk);
    if sendOk && st.sessions[k].seqNo < SEQ_REKEY_LIMIT {
      SealedGoesOut(st, k, MIdentityDeny, InIdentityDeny(reason));
      hide SealedFor, Numbered;
    }
  }

  /** A refusal from a state that differs only in files, pool and other sessions. */
  lemma DenyRefuses(st: Server, k: PeerKey, v: Server, reason: nat, env: Env)
    requires k in st.sessions && st.sessions[k].encReady && st.sessions[k].keyS2C.Some?
    requires k in v.sessions && v.out == st.out && v.bindings == st.bindings
    requires var s, t := st.sessions[k], v.sessions[k]; t.encReady && t.keyS2C == s.keyS2C && t.seqNo == s.seqNo
    ensures Refused(st, k, Deny(v, k, reason, env.sendOk), reason, env)
  {
    DenyTells(v, k, reason, env.sendOk);
    hide Deny;
  }

  // ---- addresses -------------------------------------------------------------------------

  lemma AllocatedIff(p: Pool, draws: seq<nat>)
    ensures p.Allocated(draws) != 0 <==> !p.Empty() && exists ip :: p.Free(ip)
  {
    AllocatedIsFree(p, draws);
  }

  /** An address is given exactly when the client's leased one is free or any is; it is
      free, and it is the client's lease from then on. */
  lemma AllocationIff(st: Server, id: string, draws: seq<nat>)
    ensures var g := AllocateVip(st, id, draws);
            && (g.ip != 0 <==>
                  || (!st.pool.Empty() && exists ip :: st.pool.Free(ip))
                  || (id != "" && id in st.lastVip && st.pool.Free(st.lastVip[id])))
            && (g.ip != 0 ==> st.pool.Free(g.ip))
            && (g.ip != 0 && id != "" ==> id in g.st.lastVip && g.st.lastVip[id] == g.ip)
  {
    AllocatedIff(st.pool, draws);
    AllocateGives(st, id, draws);
    PreferredInRange(st.pool, id);
    RememberedIs(st.lastVip, id, Preferred(st.pool, id));
    RememberedIs(st.lastVip, id, st.pool.Allocated(draws));
    hide Preferred, Remember, LeasedElsewhere;
  }

  lemma PreferredInRange(p: Pool, id: string)
    ensures p.Empty() ==> !p.Free(Preferred(p, id))
  {
  }

  lemma RememberedIs(leases: map<string, nat>, id: string, ip: nat)
    ensures id != "" ==> id in Remember(leases, id, ip) && Remember(leases, id, ip)[id] == ip
  {
  }

  /** The table once the other sessions of this key have ended. */
  function AloneWith(st: Server, k: PeerKey, id: string, cliPub: SigKey): Server
    requires k in st.sessions
  {
    var named := Put(st, k, st.sessions[k].(clientId := id, cliPub := Some(cliPub)));
    ReleaseAll(named, Victims(named, k))
  }

  lemma AloneIs(st: Server, k: PeerKey, id: string, cliPub: SigKey)
    requires k in st.sessions
    ensures var u := AloneWith(st, k, id, cliPub);
            && k in u.sessions && u.sessions[k] == st.sessions[k].(clientId := id, cliPub := Some(cliPub))
            && (forall v :: v in u.sessions ==> v in st.sessions)
            && (forall v :: v in st.sessions && v != k ==> (v in u.sessions <==> st.sessions[v].cliPub != Some(cliPub)))
            && u.out == st.out && u.bindings == st.bindings && u.lastVip == st.lastVip && u.cfg == st.cfg
            && u.pool.Empty() == st.pool.Empty() && u.uplinks == st.uplinks
  {
    hide Addresses;
  }

  lemma FreeAlone(st: Server, k: PeerKey, id: string, cliPub: SigKey, ip: nat)
    requires k in st.sessions
    ensures AloneWith(st, k, id, cliPub).pool.Free(ip) <==> FreeFor(st, k, cliPub, ip)
  {
    var s := st.sessions[k].(clientId := id, cliPub := Some(cliPub));
    var named := Put(st, k, s);
    var vs := Victims(named, k);
    assert forall v :: v in vs <==> v in st.sessions && v != k && st.sessions[v].cliPub == Some(cliPub);
    assert ip in Addresses(named, vs) <==> exists v :: v in vs && st.sessions[v].ipAssigned && st.sessions[v].vip != 0 && st.sessions[v].vip == ip;
    hide Victims, Addresses;
  }

  lemma PlaceableIff(st: Server, k: PeerKey, m: IdentityMsg, draws: seq<nat>)
    requires k in st.sessions && m.text.IdentityText?
    ensures var alone := AloneWith(st, k, m.text.clientId, m.text.cliPub);
            AllocateVip(alone, m.text.clientId, draws).ip != 0 <==> Placeable(st, k, m)
  {
    var id, key := m.text.clientId, m.text.cliPub;
    var alone := AloneWith(st, k, id, key);
    AllocationIff(alone, id, draws);
    AloneIs(st, k, id, key);
    forall ip
      ensures alone.pool.Free(ip) <==> FreeFor(st, k, key, ip)
    {
      FreeAlone(st, k, id, key, ip);
    }
    hide AllocateVip, AloneWith, FreeFor;
  }

  // ---- logging in -------------------------------------------------------------------------

  predicate OnlyNumbered(st: Server, k: PeerKey, u: Server)
    requires k in st.sessions
  {
    var n := Numbered(st.sessions[k]);
    && (u.sessions == st.sessions[k := n] || u.sessions == st.sessions[k := n.(tcpDrop := true)])
    && u.vipToKey == st.vipToKey
  }

  lemma StreamStays(st: Server, k: PeerKey, inner: Inner, sendOk: bool)
    requires k in st.sessions && k.tcp
    ensures OnlyNumbered(st, k, SendSealed(st, k, MIdentityOk, inner, sendOk))
  {
    hide Release;
  }

  lemma DatagramStays(st: Server, k: PeerKey, inner: Inner, sendOk: bool)
    requires k in st.sessions && !k.tcp && st.sessions[k].seqNo < SEQ_REKEY_LIMIT
    ensures OnlyNumbered(st, k, SendSealed(st, k, MIdentityOk, inner, sendOk))
  {
    hide Release;
  }

  lemma StaysToSend(st: Server, k: PeerKey, inner: Inner, sendOk: bool)
    requires k in st.sessions && (k.tcp || st.sessions[k].seqNo < SEQ_REKEY_LIMIT)
    ensures var u := SendSealed(st, k, MIdentityOk, inner, sendOk);
            && k in u.sessions && u.vipToKey == st.vipToKey
            && u.sessions[k] == Numbered(st.sessions[k]).(tcpDrop := u.sessions[k].tcpDrop)
  {
    hide SendSealed;
    if k.tcp {
      StreamStays(st, k, inner, sendOk);
    } else {
      DatagramStays(st, k, inner, sendOk);
    }
  }

  /** The session with its names and address, the gate open. */
  function Placed(s: Session, id: string, cliPub: SigKey, ip: nat): Session
  {
    s.(clientId := id, cliPub := Some(cliPub), vip := ip, ipAssigned := true, authenticated := true, handshaked := true, stage := Authed)
  }

  lemma GateIs(v: Server, k: PeerKey, s: Session, id: string, cliPub: SigKey, ip: nat)
    requires k in v.sessions && v.sessions[k] == s.(clientId := id, cliPub := Some(cliPub))
    ensures var gate := OpenGate(Assign(v, k, ip), k);
            && gate.sessions == v.sessions[k := Placed(s, id, cliPub, ip)] && gate.vipToKey == v.vipToKey[ip := k]
            && gate.bindings == v.bindings + {BindingOf(k, Placed(s, id, cliPub, ip), v.cfg.prefix)}
            && gate.out == v.out && gate.lastVip == v.lastVip && gate.cfg == v.cfg
            && forall env :: Admitting(Assign(v, k, ip), k, env) == SendSealed(gate, k, MIdentityOk, InIdentityOk(ip, v.cfg.prefix), env.sendOk)
  {
    hide Send;
  }

  /** What the announcement of a login leaves of the table. */
  lemma AnnouncedTable(st: Server, k: PeerKey, gate: Server, t: Session, inner: Inner, sendOk: bool)
    requires k in gate.sessions && gate.sessions[k] == t && t.authenticated
    ensures var u := SendSealed(gate, k, MIdentityOk, inner, sendOk);
            && u.bindings == gate.bindings && u.lastVip == gate.lastVip
            && (forall l :: l != k ==> (l in u.sessions <==> l in gate.sessions))
            && (k.tcp || t.seqNo < SEQ_REKEY_LIMIT ==>
                  k in u.sessions && u.sessions[k] == Numbered(t).(tcpDrop := u.sessions[k].tcpDrop)
                  && (forall ip :: ip in gate.vipToKey && gate.vipToKey[ip] == k ==> Route(u, ip) == Some(k)))
  {
    hide SendSealed;
    SealedFields(gate, k, inner, sendOk);
    if k.tcp || t.seqNo < SEQ_REKEY_LIMIT {
      StaysToSend(gate, k, inner, sendOk);
      assert Numbered(t).authenticated;
    }
  }

  lemma SealedFields(st: Server, k: PeerKey, inner: Inner, sendOk: bool)
    requires k in st.sessions
    ensures var u := SendSealed(st, k, MIdentityOk, inner, sendOk);
            && u.bindings == st.bindings && u.lastVip == st.lastVip
            && (forall l :: l != k ==> (l in u.sessions <==> l in st.sessions))
  {
    hide Send;
    SendFields(st, k, MIdentityOk, inner, Junk, sendOk);
    SendSessions(st, k, MIdentityOk, inner, Junk, sendOk);
  }

  lemma GateTells(st: Server, k: PeerKey, v: Server, m: IdentityMsg, ip: nat, env: Env)
    requires k in st.sessions && m.text.IdentityText? && st.sessions[k].encReady && st.sessions[k].keyS2C.Some?
    requires k in v.sessions && v.sessions[k] == st.sessions[k].(clientId := m.text.clientId, cliPub := Some(m.text.cliPub))
    requires v.out == st.out && v.bindings == st.bindings && v.cfg == st.cfg && FreeFor(st, k, m.text.cliPub, ip)
    requires m.text.clientId != "" ==> m.text.clientId in v.lastVip && v.lastVip[m.text.clientId] == ip
    requires forall l :: l in st.sessions && l != k ==> (l in v.sessions <==> st.sessions[l].cliPub != Some(m.text.cliPub))
    ensures LoggedIn(st, k, Admitting(Assign(v, k, ip), k, env), m, ip, env)
  {
    var s, id, key := st.sessions[k], m.text.clientId, m.text.cliPub;
    var gate := OpenGate(Assign(v, k, ip), k);
    hide SendSealed, OpenGate, Assign, Admitting, FreeFor, Route, SealedFor;
    var inner := InIdentityOk(ip, st.cfg.prefix);
    GateIs(v, k, s, id, key, ip);
    AnnouncedTable(st, k, gate, Placed(s, id, key, ip), inner, env.sendOk);
    if env.sendOk && s.seqNo < SEQ_REKEY_LIMIT {
      SealedGoesOut(gate, k, MIdentityOk, inner);
      SameFrame(s, Placed(s, id, key, ip), k, inner);
    }
  }

  lemma SameFrame(s: Session, t: Session, k: PeerKey, inner: Inner)
    requires s.keyS2C.Some? && t.keyS2C == s.keyS2C && t.seqNo == s.seqNo
    ensures SealedFor(t, k, MIdentityOk, inner) == SealedFor(s, k, MIdentityOk, inner)
  {
  }

  /** A login goes through exactly when there is an address to give. */
  lemma LogInEnds(st: Server, v: Server, k: PeerKey, m: IdentityMsg, env: Env)
    requires k in st.sessions && m.text.IdentityText? && v == st.(tokens := v.tokens, clients := v.clients)
    requires var s := st.sessions[k]; s.encReady && s.keyS2C.Some? && !s.ipAssigned
    ensures var u := LogIn(v, k, m.text.clientId, m.text.cliPub, env);
            if Placeable(st, k, m) then exists ip :: LoggedIn(st, k, u, m, ip, env) else Refused(st, k, u, 0, env)
  {
    var id, key := m.text.clientId, m.text.cliPub;
    var alone := AloneWith(v, k, id, key);
    var g := AllocateVip(alone, id, env.draws);
    AloneIs(v, k, id, key);
    PlaceableIff(v, k, m, env.draws);
    SamePlaceable(st, v, k, m);
    AllocateGives(alone, id, env.draws);
    AllocationIff(alone, id, env.draws);
    FreeAlone(v, k, id, key, g.ip);
    SameFree(st, v, k, key, g.ip);
    LogInIs(v, k, id, key, env);
    hide AloneWith, AllocateVip, FreeFor, Placeable, Admitting, Deny, LoggedIn, Refused, Assign, LogIn;
    if g.ip == 0 {
      DenyRefuses(st, k, g.st, 0, env);
    } else {
      GateTells(st, k, g.st, m, g.ip, env);
    }
  }

  lemma LogInIs(v: Server, k: PeerKey, id: string, cliPub: SigKey, env: Env)
    requires k in v.sessions && !v.sessions[k].ipAssigned
    ensures var alone := AloneWith(v, k, id, cliPub);
            var g := AllocateVip(alone, id, env.draws);
            && k in g.st.sessions && g.st.sessions == alone.sessions
            && LogIn(v, k, id, cliPub, env) == if g.ip == 0 then Deny(g.st, k, 0, env.sendOk) else Admitting(Assign(g.st, k, g.ip), k, env)
  {
    AloneIs(v, k, id, cliPub);
    var alone := AloneWith(v, k, id, cliPub);
    AllocateGives(alone, id, env.draws);
    hide AllocateVip, Deny, Admitting, Assign, Victims;
  }

  lemma SameFree(st: Server, v: Server, k: PeerKey, cliPub: SigKey, ip: nat)
    requires v == st.(tokens := v.tokens, clients := v.clients)
    ensures FreeFor(v, k, cliPub, ip) <==> FreeFor(st, k, cliPub, ip)
  {
  }

  lemma SamePlaceable(st: Server, v: Server, k: PeerKey, m: IdentityMsg)
    requires m.text.IdentityText? && v == st.(tokens := v.tokens, clients := v.clients)
    ensures Placeable(v, k, m) <==> Placeable(st, k, m)
  {
    forall ip
      ensures FreeFor(v, k, m.text.cliPub, ip) <==> FreeFor(st, k, m.text.cliPub, ip)
    {
      SameFree(st, v, k, m.text.cliPub, ip);
    }
    hide FreeFor;
  }

  lemma RegistryIs(st: Server, m: IdentityMsg, env: Env)
    requires m.text.IdentityText?
    ensures var r := ConsultRegistry(st, m, env);
            && (r.Registered? <==> Admissible(st, m, env))
            && r.st == st.(tokens := r.st.tokens, clients := r.st.clients)
            && (r.Rejected? ==> r.reason == if m.flags == 1 then 1 else 0)
  {
  }

  lemma IdentityIs(st: Server, k: PeerKey, m: IdentityMsg, env: Env)
    requires k in st.sessions && !st.sessions[k].authenticated && IdentityHolds(st.sessions[k], m)
    ensures m.text.IdentityText?
    ensures var c := ConsultRegistry(st, m, env);
            HandleIdentity(st, k, Some(m), env) ==
              if c.Rejected? then Deny(c.st, k, c.reason, env.sendOk)
              else if env.svcRefuses then Deny(c.st, k, 2, env.sendOk)
              else LogIn(c.st, k, m.text.clientId, m.text.cliPub, env)
  {
    HoldsIsIdentity(st.sessions[k], m);
    hide IdentityHolds, Deny, LogIn, ConsultRegistry;
  }

  lemma UnheldIs(st: Server, k: PeerKey, msg: Option<IdentityMsg>, env: Env)
    requires k in st.sessions && !st.sessions[k].authenticated && (msg.None? || !IdentityHolds(st.sessions[k], msg.value))
    ensures HandleIdentity(st, k, msg, env) == Deny(st, k, 0, env.sendOk)
    ensures !Accepted(st, k, msg, env) && Reason(st.sessions[k], st, msg, env) == 0
  {
    hide IdentityHolds, Deny;
  }

  /** The identity stage of a session that has keys: logged in exactly when accepted,
      else refused for the reason that applies. */
  lemma IdentityEnds(st: Server, k: PeerKey, msg: Option<IdentityMsg>, env: Env)
    requires k in st.sessions
    requires var s := st.sessions[k]; s.encReady && s.keyS2C.Some? && !s.ipAssigned && !s.authenticated
    ensures var u := HandleIdentity(st, k, msg, env);
            if Accepted(st, k, msg, env) then exists ip :: LoggedIn(st, k, u, msg.value, ip, env)
            else Refused(st, k, u, Reason(st.sessions[k], st, msg, env), env)
  {
    hide HandleIdentity, Deny, LogIn, IdentityHolds, Placeable, LoggedIn, Refused, ConsultRegistry, Admissible, Reason;
    if msg.None? || !IdentityHolds(st.sessions[k], msg.value) {
      UnheldIs(st, k, msg, env);
      DenyRefuses(st, k, st, 0, env);
    } else {
      var m := msg.value;
      IdentityIs(st, k, m, env);
      RegistryIs(st, m, env);
      var c := ConsultRegistry(st, m, env);
      ReasonOf(st.sessions[k], st, msg, env);
      if c.Rejected? {
        DenyRefuses(st, k, c.st, c.reason, env);
      } else if env.svcRefuses {
        DenyRefuses(st, k, c.st, 2, env);
      } else {
        LogInEnds(st, c.st, k, m, env);
      }
    }
  }

  lemma ReasonOf(s: Session, st: Server, msg: Option<IdentityMsg>, env: Env)
    requires msg.Some? && IdentityHolds(s, msg.value) && msg.value.text.IdentityText?
    ensures Reason(s, st, msg, env) ==
              if !Admissible(st, msg.value, env) then (if msg.value.flags == 1 then 1 else 0)
              else if env.svcRefuses then 2 else 0
  {
  }

  // ---- an identity frame ----------------------------------------------------------------------

  /** Noting the number of a frame changes nothing these conditions look at. */
  lemma CountingSame(st: Server, k: PeerKey, f: Frame, msg: Option<IdentityMsg>, env: Env)
    requires k in st.sessions
    ensures var v := Counting(st, k, f);
            && k in v.sessions && v.out == st.out && v.bindings == st.bindings
            && (Accepted(v, k, msg, env) <==> Accepted(st, k, msg, env))
            && Reason(v.sessions[k], v, msg, env) == Reason(st.sessions[k], st, msg, env)
  {
    var v := Counting(st, k, f);
    CountedSession(st, k, f);
    if msg.Some? && IdentityHolds(st.sessions[k], msg.value) {
      HoldsIsIdentity(st.sessions[k], msg.value);
      CountedPlace(st, k, f, msg.value);
      hide Placeable;
    }
  }

  lemma CountedSession(st: Server, k: PeerKey, f: Frame)
    requires k in st.sessions
    ensures var v, s := Counting(st, k, f), st.sessions[k];
            && v.sessions.Keys == st.sessions.Keys
            && v.sessions[k] == s.(replay := v.sessions[k].replay) && (forall l :: l in st.sessions && l != k ==> v.sessions[l] == st.sessions[l])
            && v == st.(sessions := v.sessions)
  {
  }

  lemma CountedPlace(st: Server, k: PeerKey, f: Frame, m: IdentityMsg)
    requires k in st.sessions && m.text.IdentityText?
    ensures Placeable(Counting(st, k, f), k, m) <==> Placeable(st, k, m)
  {
    forall ip
      ensures FreeFor(Counting(st, k, f), k, m.text.cliPub, ip) <==> FreeFor(st, k, m.text.cliPub, ip)
    {
      CountedFree(st, k, f, m.text.cliPub, ip);
    }
    hide FreeFor;
  }

  lemma CountedFree(st: Server, k: PeerKey, f: Frame, cliPub: SigKey, ip: nat)
    requires k in st.sessions
    ensures FreeFor(Counting(st, k, f), k, cliPub, ip) <==> FreeFor(st, k, cliPub, ip)
  {
    CountedSession(st, k, f);
    hide Counting;
  }

  lemma CountedLogin(st: Server, k: PeerKey, f: Frame, u: Server, m: IdentityMsg, ip: nat, env: Env)
    requires k in st.sessions && m.text.IdentityText? && LoggedIn(Counting(st, k, f), k, u, m, ip, env)
    ensures LoggedIn(st, k, u, m, ip, env)
  {
    CountedSession(st, k, f);
    CountedFree(st, k, f, m.text.cliPub, ip);
    hide FreeFor, Route, Counting;
  }

  lemma CountedRefusal(st: Server, k: PeerKey, f: Frame, u: Server, reason: nat, env: Env)
    requires k in st.sessions && Refused(Counting(st, k, f), k, u, reason, env)
    ensures Refused(st, k, u, reason, env)
  {
    CountedSession(st, k, f);
    hide Counting;
  }

  /** The identity message a frame brings to a session that is not logged in, if any. */
  function Claim(st: Server, k: PeerKey, f: Frame): Option<Option<IdentityMsg>>
    requires k in st.sessions
  {
    var said := Says(st, k, f);
    if !st.sessions[k].authenticated && said.Some? && said.value.InIdentity? then Some(said.value.msg) else None
  }

  lemma ClaimIsIdentity(st: Server, k: PeerKey, f: Frame, env: Env)
    requires Inv(st) && k in st.sessions && Claim(st, k, f).Some?
    ensures var v, msg := Counting(st, k, f), Claim(st, k, f).value;
            && k in v.sessions && HandleFramed(st, k, f, env) == HandleIdentity(v, k, msg, env)
            && var s := v.sessions[k]; s.encReady && s.keyS2C.Some? && !s.ipAssigned && !s.authenticated
  {
    hide HandleFramed, HandleInner, Counting, StageOk, HelloCacheOk, Unseal, Says;
    SealedIs(st, k, f, env);
    StageOf(st, k) by { hide StageOk, HelloCacheOk; }
    hide Inv;
    CountedSession(st, k, f);
    SaysByKey(st, k, f);
    KeysAre(st.sessions[k]);
    InnerIsIdentity(Counting(st, k, f), k, Claim(st, k, f).value, env);
  }

  lemma SaysByKey(st: Server, k: PeerKey, f: Frame)
    requires k in st.sessions
    ensures Says(st, k, f).Some? ==> st.sessions[k].encReady
  {
  }

  lemma InnerIsIdentity(st: Server, k: PeerKey, msg: Option<IdentityMsg>, env: Env)
    requires k in st.sessions
    ensures HandleInner(st, k, InIdentity(msg), env) == HandleIdentity(st, k, msg, env)
  {
    hide HandleIdentity;
  }

  lemma ClaimEnds(st: Server, k: PeerKey, f: Frame, env: Env)
    requires Inv(st) && k in st.sessions && Claim(st, k, f).Some?
    ensures var u, msg := HandleFramed(st, k, f, env), Claim(st, k, f).value;
            if Accepted(st, k, msg, env) then exists ip :: LoggedIn(st, k, u, msg.value, ip, env)
            else Refused(st, k, u, Reason(st.sessions[k], st, msg, env), env)
  {
    var v, msg := Counting(st, k, f), Claim(st, k, f).value;
    ClaimIsIdentity(st, k, f, env);
    CountingSame(st, k, f, msg, env);
    AcceptedIsIdentity(st, k, msg, env);
    hide Inv, HandleFramed, HandleIdentity, Counting, LoggedIn, Refused, Claim, Accepted, Reason;
    IdentityEnds(v, k, msg, env);
    if Accepted(st, k, msg, env) {
      var ip :| LoggedIn(v, k, HandleIdentity(v, k, msg, env), msg.value, ip, env);
      CountedLogin(st, k, f, HandleIdentity(v, k, msg, env), msg.value, ip, env);
    } else {
      CountedRefusal(st, k, f, HandleIdentity(v, k, msg, env), Reason(st.sessions[k], st, msg, env), env);
    }
  }

  lemma AcceptedIsIdentity(st: Server, k: PeerKey, msg: Option<IdentityMsg>, env: Env)
    requires k in st.sessions
    ensures Accepted(st, k, msg, env) ==> msg.Some? && msg.value.text.IdentityText?
  {
  }

  lemma KeysAre(s: Session)
    requires StageOk(s) && s.encReady
    ensures s.keyS2C.Some? && s.keyC2S.Some? && (!s.authenticated ==> !s.ipAssigned && s.stage.KeysReady?)
  {
  }

  /** A login is made exactly when a frame brings a claim that is accepted. Then the
      session is logged in at an address that was free for it, and its peer is told
      address and prefix; a claim that is not accepted is refused, with the reason. */
  lemma LoginIff(st: Server, k: PeerKey, f: Frame, env: Env)
    requires Inv(st) && UniqueOk(st) && k in st.sessions && EnvFresh(st, env)
    ensures var u, claim := HandleFramed(st, k, f, env), Claim(st, k, f);
            && ((exists b :: b in u.bindings && b !in st.bindings) <==> claim.Some? && Accepted(st, k, claim.value, env))
            && (claim.Some? && Accepted(st, k, claim.value, env) ==> exists ip :: LoggedIn(st, k, u, claim.value.value, ip, env))
            && (claim.Some? && !Accepted(st, k, claim.value, env) ==>
                  Refused(st, k, u, Reason(st.sessions[k], st, claim.value, env), env))
  {
    var u, claim := HandleFramed(st, k, f, env), Claim(st, k, f);
    hide Inv, UniqueOk, HandleFramed, Accepted, LoggedIn, Refused, Claim;
    if claim.None? {
      NoClaimNoLogin(st, k, f, env);
    } else {
      ClaimEnds(st, k, f, env);
      if Accepted(st, k, claim.value, env) {
        var ip :| LoggedIn(st, k, u, claim.value.value, ip, env);
        IsNewLogin(st, k, f, u, ip, env);
      } else {
        RefusedKeeps(st, k, u, Reason(st.sessions[k], st, claim.value, env), env);
      }
    }
  }

  lemma RefusedKeeps(st: Server, k: PeerKey, u: Server, reason: nat, env: Env)
    requires k in st.sessions && Refused(st, k, u, reason, env)
    ensures u.bindings == st.bindings
  {
  }

  lemma IsNewLogin(st: Server, k: PeerKey, f: Frame, u: Server, ip: nat, env: Env)
    requires Inv(st) && UniqueOk(st) && k in st.sessions && Claim(st, k, f).Some? && Claim(st, k, f).value.Some?
    requires var m := Claim(st, k, f).value.value; m.text.IdentityText? && LoggedIn(st, k, u, m, ip, env)
    ensures exists b :: b in u.bindings && b !in st.bindings
  {
    var s, m := st.sessions[k], Claim(st, k, f).value.value;
    StageOf(st, k);
    KeysAre(s);
    var b := Binding(k, s.nonceC, s.nonceS, s.dhCli, s.dhSrv, s.keyC2S, s.keyS2C, m.text.clientId, Some(m.text.cliPub), ip, st.cfg.prefix);
    assert NotYetBound(st);
    assert b in u.bindings;
    hide Inv, LoggedIn, StageOk, HelloCacheOk, DistinctKeys, OneLogin, Claim;
  }

  lemma NoClaimNoLogin(st: Server, k: PeerKey, f: Frame, env: Env)
    requires Inv(st) && k in st.sessions && EnvFresh(st, env) && Claim(st, k, f).None?
    ensures HandleFramed(st, k, f, env).bindings == st.bindings
  {
    SealedIs(st, k, f, env);
    if !SealedType(f.hdr.typ) && f.payload.Sealed? {
      Unheard(st, k, f, env);
    }
    StageOf(st, k);
    hide Inv, HandleFramed, HandleInner, HelloCacheOk;
    var mv, t := FramedEffect(st, k, f, env);
    if mv.Gated? {
      GateIsClaimed(st.sessions[k], t, st.issued, f);
      hide StageOk, Moves, CarriedBy;
    }
  }

  lemma Unheard(st: Server, k: PeerKey, f: Frame, env: Env)
    requires k in st.sessions && !SealedType(f.hdr.typ) && f.payload.Sealed?
    ensures HandleFramed(st, k, f, env) == st
  {
  }

  lemma GateIsClaimed(s: Session, t: Session, issued: set<Priv>, f: Frame)
    requires Moves(Core(s), t, Gated, issued) && CarriedBy(s, t, f) && StageOk(s)
    ensures !s.authenticated && f.payload.Sealed? && Unseal(s.keyC2S, f).Some? && Unseal(s.keyC2S, f).value.InIdentity?
  {
  }

  // ---- everything else a frame says -------------------------------------------------------

  predicate SameUplinks(st: Server, u: Server)
  {
    u.uplinks == st.uplinks
  }

  lemma SendUplinks(st: Server, k: PeerKey, typ: MsgType, inner: Inner, clear: Clear, sendOk: bool)
    requires k in st.sessions
    ensures SameUplinks(st, Send(st, k, typ, inner, clear, sendOk).st)
  {
    hide Send;
    SendFields(st, k, typ, inner, clear, sendOk);
  }

  lemma DenyUplinks(st: Server, k: PeerKey, reason: nat, sendOk: bool)
    requires k in st.sessions
    ensures SameUplinks(st, Deny(st, k, reason, sendOk))
  {
    hide Send;
    SendUplinks(st, k, MIdentityDeny, InIdentityDeny(reason), Junk, sendOk);
  }

  lemma AdmittingUplinks(st: Server, k: PeerKey, env: Env)
    requires k in st.sessions
    ensures SameUplinks(st, Admitting(st, k, env))
  {
    hide Send;
    SendUplinks(OpenGate(st, k), k, MIdentityOk, InIdentityOk(st.sessions[k].vip, st.cfg.prefix), Junk, env.sendOk);
  }

  lemma LogInUplinks(st: Server, k: PeerKey, id: string, cliPub: SigKey, env: Env)
    requires k in st.sessions
    ensures SameUplinks(st, LogIn(st, k, id, cliPub, env))
  {
    var alone := AloneWith(st, k, id, cliPub);
    AloneIs(st, k, id, cliPub);
    AllocateGives(alone, id, env.draws);
    var g := AllocateVip(alone, id, env.draws);
    hide AllocateVip, Deny, Admitting, Victims, ReleaseAll;
    if alone.sessions[k].ipAssigned {
      AdmittingUplinks(alone, k, env);
    } else if g.ip == 0 {
      DenyUplinks(g.st, k, 0, env.sendOk);
    } else {
      AdmittingUplinks(Assign(g.st, k, g.ip), k, env);
    }
  }

  lemma IdentityUplinks(st: Server, k: PeerKey, msg: Option<IdentityMsg>, env: Env)
    requires k in st.sessions
    ensures SameUplinks(st, HandleIdentity(st, k, msg, env))
  {
    var s := st.sessions[k];
    hide Deny, LogIn, IdentityHolds, ConsultRegistry, Send;
    if s.authenticated {
      SendUplinks(st, k, MIdentityOk, InIdentityOk(s.vip, st.cfg.prefix), Junk, env.sendOk);
    } else if msg.None? || !IdentityHolds(s, msg.value) {
      DenyUplinks(st, k, 0, env.sendOk);
    } else {
      HoldsIsIdentity(s, msg.value);
      RegistryIs(st, msg.value, env);
      var c := ConsultRegistry(st, msg.value, env);
      if c.Rejected? {
        DenyUplinks(c.st, k, c.reason, env.sendOk);
      } else if env.svcRefuses {
        DenyUplinks(c.st, k, 2, env.sendOk);
      } else {
        LogInUplinks(c.st, k, msg.value.text.clientId, msg.value.text.cliPub, env);
      }
    }
  }

  lemma HelloUplinks(st: Server, k: PeerKey, p: Clear, env: Env)
    requires k in st.sessions
    ensures SameUplinks(st, HandleAuthHello(st, k, p, env))
  {
    hide SendServerHello, Allow, Restarted;
    var s := st.sessions[k];
    if p.Hello? && st.cfg.signKey.Some? {
      var charged := st.(hsRl := Allow(st.hsRl, k.ip, env.now).table);
      var restarted := Restarted(s, p.nonceC, env.nonceS);
      RestartShape(s, p.nonceC, env.nonceS);
      if s.nonceC.Some? && s.nonceS.Some? && s.dhSrv.Some? {
        SendHelloUplinks(st, k, st.cfg.signKey.value, env);
      }
      if env.ephemeral.Some? {
        var e := env.ephemeral.value;
        SendHelloUplinks(Put(charged, k, restarted.(dhPriv := Some(e), dhSrv := Some(Pub(e)))).(issued := st.issued + {e}), k, st.cfg.signKey.value, env);
      }
    }
  }

  lemma SendHelloUplinks(st: Server, k: PeerKey, signKey: SigKey, env: Env)
    requires k in st.sessions
    requires var s := st.sessions[k]; s.nonceC.Some? && s.nonceS.Some? && s.dhSrv.Some?
    ensures SameUplinks(st, SendServerHello(st, k, signKey, env))
  {
    var s := st.sessions[k];
    hide Send, HelloReply;
    var cached := if s.hello.Some? then s else s.(hello := Some(HelloReply(signKey, s)));
    SendUplinks(Put(st, k, cached), k, MServerHello, InOther, cached.hello.value, env.sendOk);
  }

  /** A packet that is let into the tunnel device: said by a logged-in session, from its
      own address, neither cut off nor dropped by the service. */
  predicate LetIn(st: Server, k: PeerKey, f: Frame, env: Env)
    requires k in st.sessions
  {
    var s := st.sessions[k];
    && Says(st, k, f) == Some(InData(Some(s.vip))) && s.authenticated && !env.svcCuts && !env.svcDrops
  }

  /** Exactly such a frame adds its packet, and no frame adds anything else. */
  lemma UplinkIff(st: Server, k: PeerKey, f: Frame, env: Env)
    requires Inv(st) && k in st.sessions
    ensures HandleFramed(st, k, f, env).uplinks
            == if LetIn(st, k, f, env) then st.uplinks + [Uplink(k, st.sessions[k].vip)] else st.uplinks
  {
    AuthedHasAddress(st, k);
    hide Inv, HandleFramed;
    if Says(st, k, f).Some? {
      SaidUplinks(st, k, f, env);
    } else {
      UnsaidUplinks(st, k, f, env);
    }
    hide Says;
  }

  lemma SaidUplinks(st: Server, k: PeerKey, f: Frame, env: Env)
    requires k in st.sessions && Says(st, k, f).Some?
    ensures var s := st.sessions[k];
            var letIn := Says(st, k, f) == Some(InData(Some(s.vip))) && s.authenticated && s.ipAssigned && !env.svcCuts && !env.svcDrops;
            HandleFramed(st, k, f, env).uplinks == if letIn then st.uplinks + [Uplink(k, s.vip)] else st.uplinks
  {
    hide HandleFramed, Counting, Says, HandleInner;
    SealedIs(st, k, f, env);
    CountedSession(st, k, f);
    InnerUplinks(Counting(st, k, f), k, Says(st, k, f).value, env);
  }

  lemma UnsaidUplinks(st: Server, k: PeerKey, f: Frame, env: Env)
    requires k in st.sessions && Says(st, k, f).None?
    ensures HandleFramed(st, k, f, env).uplinks == st.uplinks
  {
    SealedIs(st, k, f, env);
    hide HandleSealed, HandleAuthHello, Says;
    if !SealedType(f.hdr.typ) && f.payload.Open? {
      HelloUplinks(st, k, f.payload.clear, env);
    }
  }

  lemma AuthedHasAddress(st: Server, k: PeerKey)
    requires Inv(st) && k in st.sessions
    ensures st.sessions[k].authenticated ==> st.sessions[k].ipAssigned
  {
    StageOf(st, k);
  }

  lemma InnerUplinks(st: Server, k: PeerKey, inner: Inner, env: Env)
    requires k in st.sessions
    ensures var s := st.sessions[k];
            var letIn := inner == InData(Some(s.vip)) && s.authenticated && s.ipAssigned && !env.svcCuts && !env.svcDrops;
            HandleInner(st, k, inner, env).uplinks == if letIn then st.uplinks + [Uplink(k, s.vip)] else st.uplinks
  {
    hide HandleIdentity, Send, Release;
    match inner
    case InIdentity(msg) => IdentityUplinks(st, k, msg, env);
    case InHeart => SendUplinks(st, k, MHeartResponse, InHeartResponse, Junk, env.sendOk);
    case _ => ReleaseFields(st, k);
  }

  /** A packet for the tunnel goes to the session that holds its destination address, as
      one data frame under that session's key, and nowhere else. */
  lemma DownlinkIff(st: Server, dst: nat, src: nat)
    requires Inv(st)
    ensures forall k :: k in st.sessions && st.sessions[k].authenticated && st.sessions[k].vip == dst && st.sessions[k].seqNo < SEQ_REKEY_LIMIT ==>
              st.sessions[k].keyS2C.Some?
              && Told(st, Step(st, Downlink(dst, src, true)), k, SealedFor(st.sessions[k], k, MData, InData(Some(src))))
    ensures (forall k :: k in st.sessions && st.sessions[k].authenticated ==> st.sessions[k].vip != dst) ==>
              forall sendOk :: Step(st, Downlink(dst, src, sendOk)) == st
  {
    RouteIsSearch(st, dst);
    forall k | k in st.sessions && st.sessions[k].authenticated && st.sessions[k].vip == dst && st.sessions[k].seqNo < SEQ_REKEY_LIMIT
      ensures st.sessions[k].keyS2C.Some?
      ensures Told(st, Step(st, Downlink(dst, src, true)), k, SealedFor(st.sessions[k], k, MData, InData(Some(src))))
    {
      AuthedHasKeys(st, k);
      hide Inv, Send, Route;
      SealedGoesOut(st, k, MData, InData(Some(src)));
    }
    hide Inv, Send, Route;
  }

  lemma AuthedHasKeys(st: Server, k: PeerKey)
    requires Inv(st) && k in st.sessions && st.sessions[k].authenticated
    ensures st.sessions[k].encReady && st.sessions[k].keyS2C.Some?
  {
    StageOf(st, k);
  }

  /** A heartbeat is sent to a logged-in session when due. */
  lemma HeartbeatGoesOut(st: Server, k: PeerKey)
    requires Inv(st) && k in st.sessions && st.sessions[k].authenticated && st.sessions[k].seqNo < SEQ_REKEY_LIMIT
    ensures st.sessions[k].keyS2C.Some?
    ensures Told(st, Step(st, Heartbeat(k, true)), k, SealedFor(st.sessions[k], k, MHeart, InHeart))
  {
    hide Inv, Step, SendSealed, SealedFor, Numbered;
    AuthedHasKeys(st, k);
    BeatIs(st, k);
    SealedGoesOut(st, k, MHeart, InHeart);
  }

  lemma BeatIs(st: Server, k: PeerKey)
    requires k in st.sessions && st.sessions[k].authenticated
    ensures Step(st, Heartbeat(k, true)) == SendSealed(st, k, MHeart, InHeart, true)
  {
    hide Send;
  }

  /** A heartbeat that is heard is answered. */
  lemma HeartbeatIsAnswered(st: Server, k: PeerKey, f: Frame, env: Env)
    requires Inv(st) && k in st.sessions && st.sessions[k].seqNo < SEQ_REKEY_LIMIT
    requires Says(st, k, f) == Some(InHeart) && env.sendOk
    ensures st.sessions[k].keyS2C.Some?
    ensures Told(st, HandleFramed(st, k, f, env), k, SealedFor(st.sessions[k], k, MHeartResponse, InHeartResponse))
  {
    SaysByKey(st, k, f);
    SaysKeys(st, k);
    hide Inv, HandleFramed, Says, Counting, Send, HandleInner;
    SealedIs(st, k, f, env);
    CountedSession(st, k, f);
    HeartIs(Counting(st, k, f), k, env);
    SealedGoesOut(Counting(st, k, f), k, MHeartResponse, InHeartResponse);
  }

  lemma SaysKeys(st: Server, k: PeerKey)
    requires Inv(st) && k in st.sessions
    ensures st.sessions[k].encReady ==> st.sessions[k].keyS2C.Some?
  {
    StageOf(st, k);
  }

  lemma HeartIs(st: Server, k: PeerKey, env: Env)
    requires k in st.sessions
    ensures HandleInner(st, k, InHeart, env) == SendSealed(st, k, MHeartResponse, InHeartResponse, env.sendOk)
  {
    hide Send;
  }

  /** A goodbye ends a datagram session at once; a stream session is closed with its
      connection. */
  lemma GoodbyeEnds(st: Server, k: PeerKey, f: Frame, env: Env)
    requires k in st.sessions && Says(st, k, f) == Some(InDisconnect)
    ensures var u := HandleFramed(st, k, f, env);
            if k.tcp then k in u.sessions && u.sessions[k].tcpDrop else k !in u.sessions
  {
    SealedIs(st, k, f, env);
    CountedSession(st, k, f);
    ReleaseFields(Counting(st, k, f), k);
    hide HandleFramed, Counting, Release, Unseal;
  }

  /** Nothing goes out at the re-key limit, where a datagram session ends and a stream
      session is to be closed, nor when the socket refuses, where a stream session is. */
  lemma NothingGoesOut(st: Server, k: PeerKey, typ: MsgType, inner: Inner, clear: Clear, sendOk: bool)
    requires k in st.sessions && (st.sessions[k].seqNo >= SEQ_REKEY_LIMIT || !sendOk)
    requires ServerSeals(typ) ==> st.sessions[k].encReady && st.sessions[k].keyS2C.Some?
    ensures var u := Send(st, k, typ, inner, clear, sendOk).st;
            && u.out == st.out && !Send(st, k, typ, inner, clear, sendOk).ok
            && (k.tcp ==> k in u.sessions && u.sessions[k].tcpDrop)
            && (!k.tcp ==> (k in u.sessions <==> st.sessions[k].seqNo < SEQ_REKEY_LIMIT))
  {
    ReleaseFields(Put(st, k, Numbered(st.sessions[k])), k);
    hide Release, SealedType;
  }

  /** A retransmitted hello is answered again, with the same signed values. */
  lemma HelloIsRepeated(st: Server, k: PeerKey, f: Frame, env: Env, signKey: SigKey)
    requires Inv(st) && k in st.sessions && st.cfg.signKey == Some(signKey)
    requires var s := st.sessions[k]; s.nonceC.Some? && s.dhPriv.Some? && s.seqNo < SEQ_REKEY_LIMIT
    requires f.hdr.version == Version(k) && f.hdr.typ.MAuthHello? && f.payload == Open(Hello(st.sessions[k].nonceC.value))
    requires (st.sessions[k].hello.Some? || env.signOk) && env.sendOk
    ensures var u, s := HandleFramed(st, k, f, env), st.sessions[k];
            && s.nonceS.Some?
            && Told(st, u, k, Frame(Header(Version(k), MServerHello, s.seqNo), Open(ReplyTo(signKey, s.nonceC.value, s.nonceS.value, s.dhPriv.value))))
  {
    StageOf(st, k);
    HelloRoutes(st, k, f, env);
    hide Inv, HandleFramed, Send;
    var s := st.sessions[k];
    assert s.stage.HelloSent? && s.nonceS.Some? && s.dhSrv == Some(Pub(s.dhPriv.value)) && !s.authenticated;
    assert s.hello.Some? ==> s.hello.value == ReplyTo(signKey, s.nonceC.value, s.nonceS.value, s.dhPriv.value);
    hide StageOk, HelloCacheOk;
    RepeatedIs(st, k, signKey, env);
  }

  lemma RepeatedIs(st: Server, k: PeerKey, signKey: SigKey, env: Env)
    requires k in st.sessions && st.cfg.signKey == Some(signKey) && env.sendOk && st.sessions[k].seqNo < SEQ_REKEY_LIMIT
    requires var s := st.sessions[k];
             && s.nonceC.Some? && s.dhPriv.Some? && s.nonceS.Some? && s.dhSrv == Some(Pub(s.dhPriv.value))
             && !s.authenticated && !s.stage.Authed? && (s.hello.Some? || env.signOk)
             && (s.hello.Some? ==> s.hello.value == ReplyTo(signKey, s.nonceC.value, s.nonceS.value, s.dhPriv.value))
    ensures var u, s := HandleAuthHello(st, k, Hello(st.sessions[k].nonceC.value), env), st.sessions[k];
            Told(st, u, k, Frame(Header(Version(k), MServerHello, s.seqNo), Open(ReplyTo(signKey, s.nonceC.value, s.nonceS.value, s.dhPriv.value))))
  {
    var s := st.sessions[k];
    var reply := ReplyTo(signKey, s.nonceC.value, s.nonceS.value, s.dhPriv.value);
    var cached := s.(hello := Some(reply));
    assert HelloReply(signKey, s) == reply;
    ClearGoesOut(Put(st, k, cached), k, MServerHello, reply);
    hide Send;
    assert s.hello.Some? ==> s == cached;
  }

  /** A session that is logged in and repeats its identity is told its address again. */
  lemma IdentityIsRepeated(st: Server, k: PeerKey, f: Frame, env: Env)
    requires Inv(st) && k in st.sessions && st.sessions[k].authenticated && st.sessions[k].seqNo < SEQ_REKEY_LIMIT
    requires Says(st, k, f).Some? && Says(st, k, f).value.InIdentity? && env.sendOk
    ensures st.sessions[k].keyS2C.Some?
    ensures Told(st, HandleFramed(st, k, f, env), k, SealedFor(st.sessions[k], k, MIdentityOk, InIdentityOk(st.sessions[k].vip, st.cfg.prefix)))
  {
    AuthedHasKeys(st, k);
    hide Inv, HandleFramed, Says, Counting, HandleInner, SendSealed, Numbered;
    SealedIs(st, k, f, env);
    CountedSession(st, k, f);
    AgainIs(Counting(st, k, f), k, Says(st, k, f).value.msg, env);
    SealedGoesOut(Counting(st, k, f), k, MIdentityOk, InIdentityOk(st.sessions[k].vip, st.cfg.prefix));
  }

  lemma AgainIs(st: Server, k: PeerKey, msg: Option<IdentityMsg>, env: Env)
    requires k in st.sessions && st.sessions[k].authenticated
    ensures HandleInner(st, k, InIdentity(msg), env) == SendSealed(st, k, MIdentityOk, InIdentityOk(st.sessions[k].vip, st.cfg.prefix), env.sendOk)
  {
    hide Send;
  }

  /** A packet the service cuts off ends its session; one from another address, or of a
      session that is not logged in, changes nothing but the window. */
  lemma OtherPackets(st: Server, k: PeerKey, f: Frame, env: Env)
    requires Inv(st) && k in st.sessions && Says(st, k, f).Some? && Says(st, k, f).value.InData?
    ensures var u, s, src := HandleFramed(st, k, f, env), st.sessions[k], Says(st, k, f).value.src;
            if s.authenticated && src == Some(s.vip) && env.svcCuts then k !in u.sessions
            else u == Counting(st, k, f).(uplinks := u.uplinks)
  {
    AuthedHasAddress(st, k);
    hide Inv, HandleFramed, Says, Counting, Release, HandleInner;
    SealedIs(st, k, f, env);
    CountedSession(st, k, f);
    DataIs(Counting(st, k, f), k, Says(st, k, f).value.src, env);
    ReleaseFields(Counting(st, k, f), k);
  }

  lemma DataIs(st: Server, k: PeerKey, src: Option<nat>, env: Env)
    requires k in st.sessions
    ensures var u, s := HandleInner(st, k, InData(src), env), st.sessions[k];
            if s.authenticated && s.ipAssigned && src == Some(s.vip) && env.svcCuts then u == Release(st, k)
            else u == st.(uplinks := u.uplinks)
  {
    hide Release;
  }

  /** Which address a login gives: the client's leased one if it is free, else the one its
      id hashes to if that is free and nobody else's lease, else any free one. */
  lemma AddressGiven(st: Server, id: string, draws: seq<nat>)
    ensures var ip := AllocateVip(st, id, draws).ip;
            && (id != "" && id in st.lastVip && st.pool.Free(st.lastVip[id]) ==> ip == st.lastVip[id])
            && (id != "" && !(id in st.lastVip && st.pool.Free(st.lastVip[id])) && st.pool.Free(Preferred(st.pool, id))
                && (forall other :: other in st.lastVip && other != id ==> st.lastVip[other] != Preferred(st.pool, id))
                ==> ip == Preferred(st.pool, id))
  {
    hide Preferred, Remember;
  }
}
