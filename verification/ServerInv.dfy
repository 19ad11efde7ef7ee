/** What every handler of the server keeps. */
module ServerInv {
  import opened Text
  import opened Replay
  import opened Protocol
  import opened VipPool
  import opened RateLimiters
  import opened ServerSpec

  // ---- the handshake of one session -------------------------------------------

  /** The cached ServerHello, if any, answers for the session's current values. */
  ghost predicate HelloCacheOk(cfg: Config, s: Session)
  {
    s.hello.Some? ==>
      && cfg.signKey.Some? && s.nonceC.Some? && s.nonceS.Some? && s.dhSrv.Some?
      && s.hello.value == HelloReply(cfg.signKey.value, s)
  }

  ghost predicate StageOk(s: Session)
  {
    && (s.authenticated <==> s.stage.Authed?)
    && (s.handshaked <==> s.stage.Authed?)
    && (s.ipAssigned <==> s.stage.Authed?)
    && (s.encReady <==> s.stage.KeysReady? || s.stage.Authed?)
    && (s.encReady ==>
          && s.dhPriv.None?
          && Derived(Tx, s).Some?
          && s.keyC2S == Derived(Tx, s) && s.keyS2C == Derived(Rx, s))
    && (!s.encReady ==> s.keyC2S.None? && s.keyS2C.None?)
    && (s.stage.NoHandshake? ==> s.nonceC.None? && s.dhPriv.None? && s.hello.None?)
    && (s.stage.HelloSent? ==> s.nonceC.Some? && s.nonceS.Some?)
    && (s.dhPriv.Some? ==> s.stage.HelloSent? && s.dhSrv == Some(Pub(s.dhPriv.value)))
    && (s.stage.Authed? ==> s.cliPub.Some?)
    && s.replay.Valid()
  }

  ghost predicate StagesOk(st: Server)
  {
    forall k :: k in st.sessions ==> StageOk(st.sessions[k]) && HelloCacheOk(st.cfg, st.sessions[k])
  }

  // ---- addresses ------------------------------------------------------------------

  /** Used addresses, the routing index and the assigned addresses of live sessions
      are one bijection inside the host range. */
  ghost predicate VipOk(st: Server)
  {
    && st.pool.used == st.vipToKey.Keys
    && (forall ip :: ip in st.vipToKey ==>
          && st.pool.Host(ip)
          && st.vipToKey[ip] in st.sessions
          && st.sessions[st.vipToKey[ip]].ipAssigned
          && st.sessions[st.vipToKey[ip]].vip == ip)
    && (forall k :: k in st.sessions && st.sessions[k].ipAssigned ==>
          st.sessions[k].vip in st.vipToKey && st.vipToKey[st.sessions[k].vip] == k)
  }

  // ---- admission ------------------------------------------------------------------

  ghost predicate CapsOk(st: Server)
  {
    && |st.sessions| <= st.cfg.maxClients
    && (forall ip :: |FromIp(st, ip)| <= MAX_PER_IP)
    && |Pending(st)| <= MAX_PENDING
  }

  // ---- ephemeral keys ---------------------------------------------------------------

  /** Made once, held by one session at a time, turned into keys at most once. */
  ghost predicate EphemeralsOk(st: Server)
  {
    && (forall i, j :: 0 <= i < j < |st.spent| ==> st.spent[i] != st.spent[j])
    && (forall e :: e in st.spent ==> e in st.issued)
    && (forall k :: k in st.sessions && st.sessions[k].dhPriv.Some? ==>
          st.sessions[k].dhPriv.value in st.issued && st.sessions[k].dhPriv.value !in st.spent)
    && (forall k, l :: k in st.sessions && l in st.sessions && k != l && st.sessions[k].dhPriv.Some?
          ==> st.sessions[k].dhPriv != st.sessions[l].dhPriv)
    && (forall k :: k in st.sessions && st.sessions[k].encReady ==>
          st.sessions[k].dhSrv.Some? && st.sessions[k].dhSrv.value.priv in st.spent)
  }

  // ---- history ----------------------------------------------------------------------

  ghost predicate BindingSound(st: Server, b: Binding)
  {
    && b.nonceC.Some? && b.nonceS.Some? && b.dhCli.Some? && b.dhSrv.Some? && b.cliPub.Some?
    && b.keyC2S == Some(SessionKey(Tx, Shared({b.dhCli.value, b.dhSrv.value}), b.nonceC.value, b.nonceS.value))
    && b.keyS2C == Some(SessionKey(Rx, Shared({b.dhCli.value, b.dhSrv.value}), b.nonceC.value, b.nonceS.value))
    && b.dhSrv.value.priv in st.spent
    && b.prefix == st.cfg.prefix
    && st.pool.Host(b.vip)
  }

  /** An identity_ok under this key announces what a binding under this key holds. */
  ghost predicate Announced(bindings: set<Binding>, key: SessionKey, vip: nat, prefix: nat)
  {
    exists b :: b in bindings && b.keyS2C == Some(key) && b.vip == vip && b.prefix == prefix
  }

  ghost predicate FrameSound(st: Server, f: Frame)
  {
    match f.payload
    case Sealed(key, aad, inner) =>
      key.dir.Rx? && (inner.InIdentityOk? ==> Announced(st.bindings, key, inner.vip, inner.prefix)) && !inner.InIdentity?
    case Open(clear) =>
      clear.ServerHello? && clear.sig.Signature? && Some(clear.sig.signer) == st.cfg.signKey
      ==> clear.sig.text.HelloText? && clear.sig.text.dhSrv.priv in st.issued
  }

  ghost predicate UplinkSound(st: Server, u: Uplink)
  {
    exists b :: b in st.bindings && b.key == u.from && b.vip == u.src
  }

  ghost predicate HistoryOk(st: Server)
  {
    && (forall k :: k in st.sessions && st.sessions[k].stage.Authed? ==> BindingOf(k, st.sessions[k], st.cfg.prefix) in st.bindings)
    && (forall b :: b in st.bindings ==> BindingSound(st, b))
    && (forall i :: 0 <= i < |st.out| ==> FrameSound(st, st.out[i].frame))
    && (forall i :: 0 <= i < |st.uplinks| ==> UplinkSound(st, st.uplinks[i]))
  }

  ghost predicate Inv(st: Server)
  {
    StagesOk(st) && VipOk(st) && CapsOk(st) && EphemeralsOk(st) && HistoryOk(st)
  }

  /** A server that has just started. */
  ghost predicate Started(st: Server)
  {
    && st.cfg.maxClients > 0
    && st.sessions == map[] && st.vipToKey == map[] && st.pool.used == {} && st.hsRl == map[]
    && st.out == [] && st.uplinks == [] && st.bindings == {} && st.issued == {} && st.spent == []
  }

  lemma StartedIsInv(st: Server)
    requires Started(st)
    ensures Inv(st)
  {
  }

  // ---- counting ----------------------------------------------------------------------

  lemma SubsetCount<T>(a: set<T>, b: set<T>)
    requires a <= b
    ensures |a| <= |b|
  {
    if a != {} {
      var x :| x in a;
      SubsetCount(a - {x}, b - {x});
    }
  }

  lemma MapCount<K, V>(m: map<K, V>)
    ensures |m| == |m.Keys|
  {
  }

  // ---- steps that touch one session quietly -------------------------------------------

  /** Only bookkeeping differs: numbering, replay window, drop request, reply cache. */
  ghost predicate QuietChange(s: Session, t: Session)
  {
    t == s.(seqNo := t.seqNo, replay := t.replay, tcpDrop := t.tcpDrop, hello := t.hello)
  }

  lemma PutStages(st: Server, k: PeerKey, t: Session)
    requires StagesOk(st) && StageOk(t) && HelloCacheOk(st.cfg, t)
    ensures StagesOk(Put(st, k, t))
  {
    hide StageOk, HelloCacheOk;
  }

  lemma PutVip(st: Server, k: PeerKey, t: Session)
    requires VipOk(st) && k in st.sessions
    requires t.ipAssigned == st.sessions[k].ipAssigned && t.vip == st.sessions[k].vip
    ensures VipOk(Put(st, k, t))
  {
  }

  lemma PutCaps(st: Server, k: PeerKey, t: Session)
    requires CapsOk(st) && k in st.sessions && (st.sessions[k].handshaked ==> t.handshaked)
    ensures CapsOk(Put(st, k, t))
  {
    var u := Put(st, k, t);
    SubsetCount(Pending(u), Pending(st));
    forall ip
      ensures |FromIp(u, ip)| <= MAX_PER_IP
    {
      assert FromIp(u, ip) == FromIp(st, ip);
    }
    assert u.sessions.Keys == st.sessions.Keys;
    MapCount(u.sessions);
    MapCount(st.sessions);
  }

  lemma PutEphemerals(st: Server, k: PeerKey, t: Session)
    requires EphemeralsOk(st) && k in st.sessions
    requires t.dhPriv == st.sessions[k].dhPriv || t.dhPriv.None?
    requires t.encReady ==> st.sessions[k].encReady && t.dhSrv == st.sessions[k].dhSrv
    ensures EphemeralsOk(Put(st, k, t))
  {
  }

  lemma PutHistory(st: Server, k: PeerKey, t: Session)
    requires HistoryOk(st)
    requires t.stage.Authed? ==> BindingOf(k, t, st.cfg.prefix) in st.bindings
    ensures HistoryOk(Put(st, k, t))
  {
    hide FrameSound, BindingSound;
    var u := Put(st, k, t);
    HistoryFrame(st, u);
  }

  lemma PutQuiet(st: Server, k: PeerKey, t: Session)
    requires Inv(st) && k in st.sessions && QuietChange(st.sessions[k], t)
    requires t.replay.Valid() && HelloCacheOk(st.cfg, t) && (t.hello.Some? ==> !t.stage.NoHandshake?)
    ensures Inv(Put(st, k, t))
  {
    QuietStage(st.sessions[k], t);
    hide StagesOk, VipOk, CapsOk, EphemeralsOk, StageOk, HelloCacheOk;
    assert StageOk(st.sessions[k]) by { StageOf(st, k); }
    PutStages(st, k, t);
    PutVip(st, k, t);
    PutCaps(st, k, t);
    PutEphemerals(st, k, t);
    assert BindingOf(k, t, st.cfg.prefix) == BindingOf(k, st.sessions[k], st.cfg.prefix);
    PutHistory(st, k, t);
  }

  lemma StageOf(st: Server, k: PeerKey)
    requires StagesOk(st) && k in st.sessions
    ensures StageOk(st.sessions[k]) && HelloCacheOk(st.cfg, st.sessions[k])
  {
  }

  lemma QuietStage(s: Session, t: Session)
    requires QuietChange(s, t) && t.replay.Valid() && (t.hello.Some? ==> !t.stage.NoHandshake?)
    ensures StageOk(s) ==> StageOk(t)
  {
  }

  /** History survives any step that only adds to it. */
  lemma HistoryFrame(st: Server, u: Server)
    requires HistoryOk(st)
    requires u.cfg == st.cfg && u.out == st.out && u.uplinks == st.uplinks && st.bindings <= u.bindings
    requires st.issued <= u.issued && st.spent <= u.spent
    requires u.pool == st.pool.(used := u.pool.used)
    ensures forall b :: b in st.bindings ==> BindingSound(u, b)
    ensures forall i :: 0 <= i < |u.out| ==> FrameSound(u, u.out[i].frame)
    ensures forall i :: 0 <= i < |u.uplinks| ==> UplinkSound(u, u.uplinks[i])
  {
    forall b | b in st.bindings
      ensures BindingSound(u, b)
    {
      assert BindingSound(st, b);
    }
    forall i | 0 <= i < |u.out|
      ensures FrameSound(u, u.out[i].frame)
    {
      assert FrameSound(st, st.out[i].frame);
    }
    forall i | 0 <= i < |u.uplinks|
      ensures UplinkSound(u, u.uplinks[i])
    {
      assert UplinkSound(st, st.uplinks[i]);
    }
  }

  // ---- release -----------------------------------------------------------------------

  lemma ReleaseKeeps(st: Server, k: PeerKey)
    requires Inv(st)
    ensures Inv(Release(st, k))
  {
    if k in st.sessions {
      ReleaseIsReleaseAll(st, k);
      ReleaseAllKeeps(st, {k});
    }
  }

  lemma ReleaseIsReleaseAll(st: Server, k: PeerKey)
    requires VipOk(st) && k in st.sessions
    ensures Release(st, k) == ReleaseAll(st, {k})
  {
    var s := st.sessions[k];
    if s.ipAssigned && s.vip != 0 {
      assert Addresses(st, {k}) == {s.vip};
    } else {
      assert Addresses(st, {k}) == {};
      assert st.vipToKey - {} == st.vipToKey && st.pool.used - {} == st.pool.used;
    }
  }

  lemma ReleaseAllKeeps(st: Server, ks: set<PeerKey>)
    requires Inv(st)
    ensures Inv(ReleaseAll(st, ks))
  {
    var u := ReleaseAll(st, ks);
    ReleaseAllVip(st, ks);
    SubsetCount(u.sessions.Keys, st.sessions.Keys);
    MapCount(u.sessions);
    MapCount(st.sessions);
    SubsetCount(Pending(u), Pending(st));
    forall ip
      ensures |FromIp(u, ip)| <= MAX_PER_IP
    {
      SubsetCount(FromIp(u, ip), FromIp(st, ip));
    }
    HistoryFrame(st, u);
  }

  lemma ReleaseAllVip(st: Server, ks: set<PeerKey>)
    requires VipOk(st)
    ensures VipOk(ReleaseAll(st, ks))
  {
    var u := ReleaseAll(st, ks);
    var ips := Addresses(st, ks);
    forall ip | ip in u.vipToKey
      ensures u.vipToKey[ip] in u.sessions
    {
      assert st.vipToKey[ip] in ks ==> ip in ips;
    }
    forall k | k in u.sessions && u.sessions[k].ipAssigned
      ensures u.sessions[k].vip !in ips
    {
      assert forall l :: l in ks && l in st.sessions && st.sessions[l].ipAssigned && st.sessions[l].vip == st.sessions[k].vip ==> l == k;
    }
  }

  // ---- admission ---------------------------------------------------------------------

  /** Admission keeps the invariant, and with it the caps. */
  lemma AdmitKeeps(st: Server, k: PeerKey, now: int, victim: Option<PeerKey>)
    requires Inv(st) && VictimOk(st, k.ip, victim)
    ensures Inv(GetOrCreate(st, k, now, victim))
  {
    hide Inv, Room, FromIp, Pending;
    RoomKeeps(st, k.ip, victim);
    if Admits(st, k, victim) {
      PutNewKeeps(Room(st, k.ip, victim), k, NewSession(now));
    }
  }

  lemma RoomKeeps(st: Server, ip: nat, victim: Option<PeerKey>)
    requires Inv(st) && VictimOk(st, ip, victim)
    ensures var u := Room(st, ip, victim);
            && Inv(u)
            && u.cfg == st.cfg
            && u.sessions.Keys <= st.sessions.Keys
            && |Pending(u)| <= |Pending(st)|
            && (|FromIp(st, ip)| < MAX_PER_IP || victim.Some? ==> |FromIp(u, ip)| < MAX_PER_IP)
  {
    if |FromIp(st, ip)| >= MAX_PER_IP && victim.Some? {
      InvParts(st);
      EvictMakesRoom(st, ip, victim.value);
    }
  }

  /** Making room never removes or alters an authenticated session. */
  lemma AdmitSparesAuthenticated(st: Server, k: PeerKey, now: int, victim: Option<PeerKey>, l: PeerKey)
    requires VictimOk(st, k.ip, victim) && l in st.sessions && st.sessions[l].handshaked
    ensures l in GetOrCreate(st, k, now, victim).sessions
    ensures GetOrCreate(st, k, now, victim).sessions[l] == st.sessions[l]
  {
    RoomSessions(st, k.ip, victim, l);
    hide NewSession, Room, Pending, FromIp, OldestPending;
  }

  /** Only the newcomer is added. */
  lemma AdmitAddsOnlyNewcomer(st: Server, k: PeerKey, now: int, victim: Option<PeerKey>, l: PeerKey)
    requires VictimOk(st, k.ip, victim) && l in GetOrCreate(st, k, now, victim).sessions
    ensures if l in st.sessions then GetOrCreate(st, k, now, victim).sessions[l] == st.sessions[l]
            else l == k && GetOrCreate(st, k, now, victim).sessions[l] == NewSession(now)
  {
    RoomSessions(st, k.ip, victim, l);
    hide NewSession, Room, Pending, FromIp, OldestPending, Admits, VictimOk;
    var room := Room(st, k.ip, victim);
    assert GetOrCreate(st, k, now, victim).sessions in {st.sessions, room.sessions, room.sessions[k := NewSession(now)]};
  }

  lemma RoomSessions(st: Server, ip: nat, victim: Option<PeerKey>, l: PeerKey)
    requires VictimOk(st, ip, victim)
    ensures l in Room(st, ip, victim).sessions ==> l in st.sessions && Room(st, ip, victim).sessions[l] == st.sessions[l]
    ensures l in st.sessions && st.sessions[l].handshaked ==> l in Room(st, ip, victim).sessions
  {
    if victim.Some? {
      ReleaseFields(st, victim.value);
      assert victim.value in Pending(st);
    }
  }

  lemma ReleaseFields(st: Server, k: PeerKey)
    ensures var u := Release(st, k);
            && u.sessions == st.sessions - {k}
            && u.cfg == st.cfg && u.bindings == st.bindings && u.issued == st.issued && u.spent == st.spent
            && u.out == st.out && u.uplinks == st.uplinks && u.lastVip == st.lastVip && u.hsRl == st.hsRl
            && u.clients == st.clients && u.tokens == st.tokens
  {
    if k !in st.sessions {
      assert st.sessions - {k} == st.sessions;
    }
  }

  lemma InvParts(st: Server)
    requires Inv(st)
    ensures CapsOk(st) && VipOk(st) && StagesOk(st) && EphemeralsOk(st) && HistoryOk(st)
  {
  }

  lemma EvictMakesRoom(st: Server, ip: nat, v: PeerKey)
    requires Inv(st) && OldestPending(st, ip, v)
    ensures Inv(Release(st, v))
    ensures Release(st, v).sessions == st.sessions - {v}
    ensures !st.sessions[v].stage.Authed?
    ensures |FromIp(Release(st, v), ip)| < MAX_PER_IP
    ensures |Pending(Release(st, v))| <= |Pending(st)|
  {
    ReleaseKeeps(st, v);
    var u := Release(st, v);
    assert FromIp(u, ip) == FromIp(st, ip) - {v};
    SubsetCount(Pending(u), Pending(st));
  }

  ghost predicate Blank(t: Session)
  {
    t.stage.NoHandshake? && StageOk(t) && t.hello.None?
  }

  lemma NewSessionIsBlank(now: int)
    ensures Blank(NewSession(now))
  {
  }

  lemma PutNewKeeps(st: Server, k: PeerKey, t: Session)
    requires Inv(st) && k !in st.sessions && t == NewSession(t.createdAt)
    requires |st.sessions| < st.cfg.maxClients && |FromIp(st, k.ip)| < MAX_PER_IP && |Pending(st)| < MAX_PENDING
    ensures Inv(Put(st, k, t))
  {
    NewSessionIsBlank(t.createdAt);
    InvParts(st);
    hide NewSession, Inv;
    assert !t.ipAssigned && !t.handshaked && !t.encReady && t.dhPriv.None?;
    PutNewVip(st, k, t);
    PutNewCaps(st, k, t);
    PutNewEphemerals(st, k, t);
    PutStages(st, k, t);
    PutHistory(st, k, t);
    InvFrom(Put(st, k, t));
  }

  lemma InvFrom(st: Server)
    requires CapsOk(st) && VipOk(st) && StagesOk(st) && EphemeralsOk(st) && HistoryOk(st)
    ensures Inv(st)
  {
  }

  lemma PutNewVip(st: Server, k: PeerKey, t: Session)
    requires VipOk(st) && k !in st.sessions && !t.ipAssigned
    ensures VipOk(Put(st, k, t))
  {
  }

  lemma PutNewEphemerals(st: Server, k: PeerKey, t: Session)
    requires EphemeralsOk(st) && k !in st.sessions && t.dhPriv.None? && !t.encReady
    ensures EphemeralsOk(Put(st, k, t))
  {
  }

  lemma AddOne<T>(a: set<T>, x: T)
    ensures |a + {x}| <= |a| + 1
  {
    if x in a {
      assert a + {x} == a;
    }
  }

  lemma PutNewCaps(st: Server, k: PeerKey, t: Session)
    requires CapsOk(st) && k !in st.sessions
    requires |st.sessions| < st.cfg.maxClients && |FromIp(st, k.ip)| < MAX_PER_IP && |Pending(st)| < MAX_PENDING
    ensures CapsOk(Put(st, k, t))
  {
    var u := Put(st, k, t);
    assert u.sessions.Keys == st.sessions.Keys + {k};
    AddOne(st.sessions.Keys, k);
    MapCount(u.sessions);
    MapCount(st.sessions);
    AddOne(Pending(st), k);
    SubsetCount(Pending(u), Pending(st) + {k});
    forall ip
      ensures |FromIp(u, ip)| <= MAX_PER_IP
    {
      if ip == k.ip {
        AddOne(FromIp(st, ip), k);
        SubsetCount(FromIp(u, ip), FromIp(st, ip) + {k});
      } else {
        SubsetCount(FromIp(u, ip), FromIp(st, ip));
      }
    }
  }

  // ---- sending -----------------------------------------------------------------------

  /** What may be put into a frame for this session. */
  ghost predicate Sendable(st: Server, k: PeerKey, typ: MsgType, inner: Inner, clear: Clear)
    requires k in st.sessions
  {
    if ServerSeals(typ) then
      && !inner.InIdentity?
      && (inner.InIdentityOk? && st.sessions[k].keyS2C.Some? ==>
            Announced(st.bindings, st.sessions[k].keyS2C.value, inner.vip, inner.prefix))
    else
      clear.ServerHello? && clear.sig.Signature? && Some(clear.sig.signer) == st.cfg.signKey
      ==> clear.sig.text.HelloText? && clear.sig.text.dhSrv.priv in st.issued
  }

  function Numbered(s: Session): Session
  {
    s.(seqNo := (s.seqNo + 1) % SEQ_WORD)
  }

  lemma SendKeeps(st: Server, k: PeerKey, typ: MsgType, inner: Inner, clear: Clear, sendOk: bool)
    requires Inv(st) && k in st.sessions && Sendable(st, k, typ, inner, clear)
    ensures Inv(Send(st, k, typ, inner, clear, sendOk).st)
  {
    hide Inv, Send, Numbered, FrameSound, SentFrame, Release, Sendable;
    var n := Put(st, k, Numbered(st.sessions[k]));
    NumberedKeeps(st, k);
    SendForms(st, k, typ, inner, clear, sendOk);
    if Send(st, k, typ, inner, clear, sendOk).ok {
      var sent := Sent(k, SentFrame(st.sessions[k], k, typ, inner, clear));
      SentFrameSound(st, k, typ, inner, clear);
      FrameSoundEverywhere(st, n, sent.frame);
      AppendSent(n, sent);
    }
  }

  lemma NumberedKeeps(st: Server, k: PeerKey)
    requires Inv(st) && k in st.sessions
    ensures var n := Numbered(st.sessions[k]);
            && Inv(Put(st, k, n)) && Inv(Put(st, k, n.(tcpDrop := true))) && Inv(Release(Put(st, k, n), k))
  {
    var n := Numbered(st.sessions[k]);
    InvParts(st);
    StageOf(st, k);
    NumberedIsQuiet(st.cfg, st.sessions[k]);
    hide Inv, StageOk, StagesOk, VipOk, CapsOk, HelloCacheOk, EphemeralsOk, HistoryOk, Numbered, QuietChange, Release;
    PutQuiet(st, k, n);
    PutQuiet(st, k, n.(tcpDrop := true));
    ReleaseKeeps(Put(st, k, n), k);
  }

  lemma SentFrameSound(st: Server, k: PeerKey, typ: MsgType, inner: Inner, clear: Clear)
    requires Inv(st) && k in st.sessions && Sendable(st, k, typ, inner, clear)
    requires ServerSeals(typ) ==> st.sessions[k].keyS2C.Some?
    ensures FrameSound(st, SentFrame(st.sessions[k], k, typ, inner, clear))
  {
    if ServerSeals(typ) {
      KeyIsRx(st, k);
    }
  }

  lemma NumberedIsQuiet(cfg: Config, s: Session)
    requires StageOk(s) && HelloCacheOk(cfg, s)
    ensures var n := Numbered(s);
            && QuietChange(s, n) && HelloCacheOk(cfg, n) && n.replay.Valid()
            && QuietChange(s, n.(tcpDrop := true)) && HelloCacheOk(cfg, n.(tcpDrop := true))
            && (n.hello.Some? ==> !n.stage.NoHandshake?)
  {
  }

  lemma FrameSoundEverywhere(st: Server, u: Server, f: Frame)
    requires FrameSound(st, f) && u.cfg == st.cfg && u.bindings == st.bindings && u.issued == st.issued
    ensures FrameSound(u, f)
  {
  }

  /** The frame a successful send hands over. */
  function SentFrame(s: Session, k: PeerKey, typ: MsgType, inner: Inner, clear: Clear): Frame
    requires ServerSeals(typ) ==> s.keyS2C.Some?
  {
    var hdr := Header(if k.tcp then V_TCP else V_UDP, typ, s.seqNo);
    Frame(hdr, if ServerSeals(typ) then Sealed(s.keyS2C.value, hdr, inner) else Open(clear))
  }

  /** The four forms the outcome of a send takes. */
  lemma SendForms(st: Server, k: PeerKey, typ: MsgType, inner: Inner, clear: Clear, sendOk: bool)
    requires k in st.sessions
    ensures var s := st.sessions[k];
            var n := Numbered(s);
            var r := Send(st, k, typ, inner, clear, sendOk);
            if r.ok then
              && (ServerSeals(typ) ==> s.keyS2C.Some?)
              && r.st == Put(st, k, n).(out := st.out + [Sent(k, SentFrame(s, k, typ, inner, clear))])
              && s.seqNo < SEQ_REKEY_LIMIT
            else
              || r.st == Put(st, k, n)
              || r.st == Put(st, k, n.(tcpDrop := true))
              || r.st == Release(Put(st, k, n), k)
  {
    hide Release;
  }

  /** A send leaves every session of the table as it was but for bookkeeping, or
      ends the sender's. */
  lemma SendQuiet(st: Server, k: PeerKey, typ: MsgType, inner: Inner, clear: Clear, sendOk: bool, l: PeerKey)
    requires k in st.sessions && l in Send(st, k, typ, inner, clear, sendOk).st.sessions
    ensures var u := Send(st, k, typ, inner, clear, sendOk).st;
            l in st.sessions && Renumbered(st.sessions[l], u.sessions[l])
  {
    hide Send, Release, Numbered;
    var u := Send(st, k, typ, inner, clear, sendOk).st;
    SendForms(st, k, typ, inner, clear, sendOk);
    NumberedIsRenumbered(st.sessions[k]);
    ReleaseFields(Put(st, k, Numbered(st.sessions[k])), k);
    if l != k {
      assert u.sessions[l] == st.sessions[l];
    }
  }

  ghost predicate Renumbered(s: Session, t: Session)
  {
    t == s.(seqNo := t.seqNo, tcpDrop := t.tcpDrop)
  }

  lemma NumberedIsRenumbered(s: Session)
    ensures Renumbered(s, Numbered(s)) && Renumbered(s, Numbered(s).(tcpDrop := true))
    ensures forall t :: Renumbered(t, t)
  {
  }

  lemma SendFields(st: Server, k: PeerKey, typ: MsgType, inner: Inner, clear: Clear, sendOk: bool)
    requires k in st.sessions
    ensures var u := Send(st, k, typ, inner, clear, sendOk).st;
            && u.cfg == st.cfg && u.bindings == st.bindings && u.issued == st.issued && u.spent == st.spent
            && u.uplinks == st.uplinks && u.lastVip == st.lastVip && u.hsRl == st.hsRl
            && u.clients == st.clients && u.tokens == st.tokens
            && st.out <= u.out && |u.out| <= |st.out| + 1
  {
    hide Send, Release, Numbered, SentFrame;
    SendForms(st, k, typ, inner, clear, sendOk);
    ReleaseFields(Put(st, k, Numbered(st.sessions[k])), k);
  }

  lemma KeyIsRx(st: Server, k: PeerKey)
    requires Inv(st) && k in st.sessions && st.sessions[k].keyS2C.Some?
    ensures st.sessions[k].keyS2C.value.dir.Rx?
  {
    StageOf(st, k);
  }

  lemma AppendSent(st: Server, sent: Sent)
    requires Inv(st) && FrameSound(st, sent.frame)
    ensures Inv(st.(out := st.out + [sent]))
  {
    var u := st.(out := st.out + [sent]);
    assert CapsOk(u) by {
      assert Pending(u) == Pending(st);
      assert forall ip :: FromIp(u, ip) == FromIp(st, ip);
    }
    AppendSentHistory(st, sent);
  }

  lemma AppendSentHistory(st: Server, sent: Sent)
    requires HistoryOk(st) && FrameSound(st, sent.frame)
    ensures HistoryOk(st.(out := st.out + [sent]))
  {
    var u := st.(out := st.out + [sent]);
    forall i | 0 <= i < |u.out|
      ensures FrameSound(u, u.out[i].frame)
    {
      assert i < |st.out| ==> FrameSound(st, st.out[i].frame);
    }
    forall i | 0 <= i < |u.uplinks|
      ensures UplinkSound(u, u.uplinks[i])
    {
      assert UplinkSound(st, st.uplinks[i]);
    }
    forall b | b in u.bindings
      ensures BindingSound(u, b)
    {
      assert BindingSound(st, b);
    }
  }
}
