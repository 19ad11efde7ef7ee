/** The server's session table, handshake and address handling (server/UDP/UDP.cpp,
    server/UDP/Session.h) as functions from state to state, one per handler or
    locked section. */
module ServerSpec {
  import opened Text
  import opened Replay
  import opened Protocol
  import opened VipPool
  import opened RateLimiters

  const MAX_PENDING: nat := 32
  const MAX_PER_IP: nat := 8
  const MAX_LEASES: nat := 10000

  datatype PeerKey = PeerKey(ip: nat, port: nat, tcp: bool)

  datatype Stage = NoHandshake | HelloSent | KeysReady | Authed

  datatype Session = Session(
    createdAt: int,
    stage: Stage,
    nonceC: Option<Nonce>, nonceS: Option<Nonce>,
    dhCli: Option<Pub>, dhSrv: Option<Pub>, dhPriv: Option<Priv>,
    keyC2S: Option<SessionKey>, keyS2C: Option<SessionKey>,
    encReady: bool, authenticated: bool, handshaked: bool,
    hello: Option<Clear>,
    clientId: string, cliPub: Option<SigKey>,
    vip: nat, ipAssigned: bool,
    tcpDrop: bool, seqNo: nat, replay: Window)

  function NewSession(now: int): Session
  {
    Session(now, NoHandshake, None, None, None, None, None, None, None, false, false, false, None, "", None,
            0, false, false, 0, FRESH)
  }

  datatype Config = Config(maxClients: nat, prefix: nat, signKey: Option<SigKey>)

  /** Once a session is authenticated: who, over which handshake, at which address. */
  datatype Binding = Binding(key: PeerKey, nonceC: Option<Nonce>, nonceS: Option<Nonce>,
                             dhCli: Option<Pub>, dhSrv: Option<Pub>,
                             keyC2S: Option<SessionKey>, keyS2C: Option<SessionKey>,
                             clientId: string, cliPub: Option<SigKey>, vip: nat, prefix: nat)

  datatype Sent = Sent(to: PeerKey, frame: Frame)
  datatype Uplink = Uplink(from: PeerKey, src: nat)

  /** The state, and below the line what happened so far: frames sent, packets let
      into the TUN device, bindings made, ephemeral keys made and used up. */
  datatype Server = Server(
    cfg: Config,
    sessions: map<PeerKey, Session>,
    vipToKey: map<nat, PeerKey>,
    pool: Pool,
    lastVip: map<string, nat>,
    hsRl: Table,
    clients: set<SigKey>,
    tokens: multiset<string>,
    // ----
    out: seq<Sent>,
    uplinks: seq<Uplink>,
    bindings: set<Binding>,
    issued: set<Priv>,
    spent: seq<Priv>)

  /** Everything a step draws from its surroundings: the clock, randomness, and
      whether calls outside this model succeed. */
  datatype Env = Env(
    now: int,
    nonceS: Nonce, ephemeral: Option<Priv>, signOk: bool, dhOk: bool,
    tokenFileOk: bool, clientFileOk: bool, svcRefuses: bool, svcCuts: bool, svcDrops: bool,
    draws: seq<nat>, sendOk: bool, victim: Option<PeerKey>)

  function Put(st: Server, k: PeerKey, s: Session): Server
  {
    st.(sessions := st.sessions[k := s])
  }

  // ---- virtual addresses ----------------------------------------------------------

  function ReleaseVip(st: Server, ip: nat): Server
  {
    if ip == 0 then st else st.(vipToKey := st.vipToKey - {ip}, pool := st.pool.Release(ip))
  }

  function Remember(leases: map<string, nat>, id: string, ip: nat): map<string, nat>
  {
    if id == "" then leases
    else if |leases| > MAX_LEASES then map[id := ip]
    else leases[id := ip]
  }

  predicate LeasedElsewhere(leases: map<string, nat>, id: string, ip: nat)
  {
    exists other :: other in leases && other != id && leases[other] == ip
  }

  datatype Tier = ByLease | ByIdentity | ByChance

  /** Which of the three strategies serves this client now. */
  function TierOf(st: Server, id: string): Tier
  {
    if id != "" && id in st.lastVip && st.pool.Free(st.lastVip[id]) then ByLease
    else if id != "" && st.pool.Free(Preferred(st.pool, id)) && !LeasedElsewhere(st.lastVip, id, Preferred(st.pool, id)) then ByIdentity
    else ByChance
  }

  datatype Given = Given(ip: nat, st: Server)

  function AllocateVip(st: Server, id: string, draws: seq<nat>): Given
  {
    match TierOf(st, id)
    case ByLease =>
      var ip := st.lastVip[id];
      Given(ip, st.(pool := st.pool.Take(ip)))
    case ByIdentity =>
      var ip := Preferred(st.pool, id);
      Given(ip, st.(pool := st.pool.Take(ip), lastVip := Remember(st.lastVip, id, ip)))
    case ByChance =>
      var ip := st.pool.Allocated(draws);
      if ip == 0 then Given(0, st)
      else Given(ip, st.(pool := st.pool.Take(ip), lastVip := Remember(st.lastVip, id, ip)))
  }

  // ---- the session table ------------------------------------------------------------

  function Release(st: Server, k: PeerKey): Server
  {
    if k !in st.sessions then st
    else
      var s := st.sessions[k];
      var off := st.(sessions := st.sessions - {k});
      if s.ipAssigned && s.vip != 0 then ReleaseVip(off, s.vip) else off
  }

  function Pending(st: Server): set<PeerKey>
  {
    set k | k in st.sessions && !st.sessions[k].handshaked
  }

  function FromIp(st: Server, ip: nat): set<PeerKey>
  {
    set k | k in st.sessions && k.ip == ip
  }

  /** An unauthenticated session of this source, as old as any other. */
  predicate OldestPending(st: Server, ip: nat, v: PeerKey)
  {
    && v in FromIp(st, ip) && v in Pending(st)
    && forall k :: k in FromIp(st, ip) && k in Pending(st) ==> st.sessions[v].createdAt <= st.sessions[k].createdAt
  }

  /** The victim is the oldest unauthenticated session of the source, if any. */
  predicate VictimOk(st: Server, ip: nat, victim: Option<PeerKey>)
  {
    match victim
    case Some(v) => OldestPending(st, ip, v)
    case None => FromIp(st, ip) * Pending(st) == {}
  }

  /** The table after the per-source check: at the limit its oldest unauthenticated
      session goes, if it has one. */
  function Room(st: Server, ip: nat, victim: Option<PeerKey>): Server
  {
    if |FromIp(st, ip)| >= MAX_PER_IP && victim.Some? then Release(st, victim.value) else st
  }

  predicate Admits(st: Server, k: PeerKey, victim: Option<PeerKey>)
  {
    && k !in st.sessions
    && |Pending(st)| < MAX_PENDING
    && (|FromIp(st, k.ip)| < MAX_PER_IP || victim.Some?)
    && |Room(st, k.ip, victim).sessions| < st.cfg.maxClients
  }

  function GetOrCreate(st: Server, k: PeerKey, now: int, victim: Option<PeerKey>): Server
  {
    if k in st.sessions || |Pending(st)| >= MAX_PENDING then st
    else if Admits(st, k, victim) then Put(Room(st, k.ip, victim), k, NewSession(now))
    else Room(st, k.ip, victim)
  }

  // ---- sending ----------------------------------------------------------------------

  datatype SendResult = SendResult(ok: bool, st: Server)

  /** send_packet: number, seal and hand over one frame. At the sequence limit the
      session ends instead; a TCP session whose backlog is full is asked to drop. */
  function Send(st: Server, k: PeerKey, typ: MsgType, inner: Inner, clear: Clear, sendOk: bool): SendResult
    requires k in st.sessions
  {
    var s := st.sessions[k];
    var numbered := s.(seqNo := (s.seqNo + 1) % SEQ_WORD);
    if s.seqNo >= SEQ_REKEY_LIMIT then
      SendResult(false, if k.tcp then Put(st, k, numbered.(tcpDrop := true)) else Release(Put(st, k, numbered), k))
    else if ServerSeals(typ) && (!s.encReady || s.keyS2C.None?) then
      SendResult(false, Put(st, k, numbered))
    else if !sendOk then
      SendResult(false, Put(st, k, if k.tcp then numbered.(tcpDrop := true) else numbered))
    else
      var hdr := Header(if k.tcp then V_TCP else V_UDP, typ, s.seqNo);
      var payload := if ServerSeals(typ) then Sealed(s.keyS2C.value, hdr, inner) else Open(clear);
      SendResult(true, Put(st, k, numbered).(out := st.out + [Sent(k, Frame(hdr, payload))]))
  }

  function SendSealed(st: Server, k: PeerKey, typ: MsgType, inner: Inner, sendOk: bool): Server
    requires k in st.sessions
  {
    Send(st, k, typ, inner, Junk, sendOk).st
  }

  // ---- stage 1: auth_hello ------------------------------------------------------------

  /** The signed reply for the session's current values. */
  function HelloReply(signKey: SigKey, s: Session): Clear
    requires s.nonceC.Some? && s.nonceS.Some? && s.dhSrv.Some?
  {
    ServerHello(s.nonceS.value, s.dhSrv.value,
                Signature(signKey, HelloText(s.nonceC.value, s.nonceS.value, s.dhSrv.value)))
  }

  /** Sign unless a reply is cached, then send the cached reply. */
  function SendServerHello(st: Server, k: PeerKey, signKey: SigKey, env: Env): Server
    requires k in st.sessions
    requires var s := st.sessions[k]; s.nonceC.Some? && s.nonceS.Some? && s.dhSrv.Some?
  {
    var s := st.sessions[k];
    if s.hello.None? && !env.signOk then st
    else
      var cached := if s.hello.Some? then s else s.(hello := Some(HelloReply(signKey, s)));
      Send(Put(st, k, cached), k, MServerHello, InOther, cached.hello.value, env.sendOk).st
  }

  /** What a new handshake on this session starts from. */
  function Restarted(s: Session, nonceC: Nonce, nonceS: Nonce): Session
  {
    s.(dhPriv := None, keyC2S := None, keyS2C := None, hello := None,
       encReady := false, authenticated := false, handshaked := false,
       stage := HelloSent, nonceC := Some(nonceC), nonceS := Some(nonceS))
  }

  function HandleAuthHello(st: Server, k: PeerKey, p: Clear, env: Env): Server
    requires k in st.sessions
  {
    var s := st.sessions[k];
    if !p.Hello? || st.cfg.signKey.None? then st
    else if s.stage.Authed? || s.authenticated then st
    else if s.nonceC == Some(p.nonceC) && s.dhPriv.Some? && s.nonceS.Some? && s.dhSrv.Some? then
      SendServerHello(st, k, st.cfg.signKey.value, env)
    else if (s.stage.KeysReady? || s.authenticated || s.encReady || s.handshaked)
            && s.nonceC.Some? && s.nonceC.value != p.nonceC then st
    else
      var rl := Allow(st.hsRl, k.ip, env.now);
      var charged := st.(hsRl := rl.table);
      if !rl.granted then charged
      else
        var restarted := Restarted(s, p.nonceC, env.nonceS);
        match env.ephemeral
        case None => Put(charged, k, restarted)
        case Some(e) =>
          var keyed := Put(charged, k, restarted.(dhPriv := Some(e), dhSrv := Some(Pub(e)))).(issued := st.issued + {e});
          SendServerHello(keyed, k, st.cfg.signKey.value, env)
  }

  // ---- stage 2: auth_client_hello -------------------------------------------------------

  function Derived(dir: Direction, s: Session): Option<SessionKey>
  {
    if s.dhCli.Some? && s.dhSrv.Some? && s.nonceC.Some? && s.nonceS.Some? then
      Some(SessionKey(dir, Shared({s.dhCli.value, s.dhSrv.value}), s.nonceC.value, s.nonceS.value))
    else None
  }

  function HandleClientHello(st: Server, k: PeerKey, p: Clear, env: Env): Server
    requires k in st.sessions
  {
    var s := st.sessions[k];
    if !p.ClientHello? || !s.stage.HelloSent? then st
    else if s.dhPriv.None? || s.nonceC.None? || s.nonceS.None? then st
    else
      var heard := s.(dhCli := Some(p.dhCli));
      if !env.dhOk then Put(st, k, heard)
      else
        var secret := Dh(s.dhPriv.value, p.dhCli);
        var done := heard.(
          keyC2S := Some(SessionKey(Tx, secret, s.nonceC.value, s.nonceS.value)),
          keyS2C := Some(SessionKey(Rx, secret, s.nonceC.value, s.nonceS.value)),
          dhPriv := None, stage := KeysReady, encReady := true);
        Put(st, k, done).(spent := st.spent + [s.dhPriv.value])
  }

  // ---- stage 3: identity ------------------------------------------------------------------

  function Deny(st: Server, k: PeerKey, reason: nat, sendOk: bool): Server
    requires k in st.sessions
  {
    var sent := SendSealed(st, k, MIdentityDeny, InIdentityDeny(reason), sendOk);
    if k in sent.sessions then Put(sent, k, sent.sessions[k].(authenticated := false, handshaked := false)) else sent
  }

  /** Other sessions logged in with the same public key. */
  function Victims(st: Server, k: PeerKey): set<PeerKey>
    requires k in st.sessions
  {
    set v | v in st.sessions && v != k && st.sessions[v].cliPub == st.sessions[k].cliPub
  }

  function Addresses(st: Server, ks: set<PeerKey>): set<nat>
  {
    set k | k in ks && k in st.sessions && st.sessions[k].ipAssigned && st.sessions[k].vip != 0 :: st.sessions[k].vip
  }

  /** Releasing several sessions, in any order. */
  function ReleaseAll(st: Server, ks: set<PeerKey>): Server
  {
    var ips := Addresses(st, ks);
    st.(sessions := st.sessions - ks, vipToKey := st.vipToKey - ips, pool := st.pool.(used := st.pool.used - ips))
  }

  function BindingOf(k: PeerKey, s: Session, prefix: nat): Binding
  {
    Binding(k, s.nonceC, s.nonceS, s.dhCli, s.dhSrv, s.keyC2S, s.keyS2C, s.clientId, s.cliPub, s.vip, prefix)
  }

  /** The message names this very handshake and is signed by the key it carries. */
  predicate IdentityHolds(s: Session, m: IdentityMsg)
  {
    && m.text.IdentityText?
    && Some(m.text.nonceC) == s.nonceC && Some(m.text.nonceS) == s.nonceS
    && Some(m.text.dhCli) == s.dhCli && Some(m.text.dhSrv) == s.dhSrv
    && Verifies(m.text.cliPub, m.text, m.sig)
  }

  /** The registration files' verdict: the new state, or the reason for refusal. */
  datatype Registry = Registered(st: Server) | Rejected(st: Server, reason: nat)

  function ConsultRegistry(st: Server, m: IdentityMsg, env: Env): Registry
    requires m.text.IdentityText?
  {
    if m.flags == 1 then
      if m.token == "" || m.token !in st.tokens || !env.tokenFileOk then Rejected(st, 1)
      else
        var used := st.(tokens := st.tokens - multiset{m.token});
        if !env.clientFileOk then Rejected(used, 1)
        else Registered(used.(clients := st.clients + {m.text.cliPub}))
    else if m.text.cliPub !in st.clients then Rejected(st, 0)
    else Registered(st)
  }

  function Assign(st: Server, k: PeerKey, ip: nat): Server
    requires k in st.sessions
  {
    Put(st, k, st.sessions[k].(vip := ip, ipAssigned := true)).(vipToKey := st.vipToKey[ip := k])
  }

  /** From here the identity is accepted: kick, assign an address, open the gate. */
  function LogIn(st: Server, k: PeerKey, id: string, cliPub: SigKey, env: Env): Server
    requires k in st.sessions
  {
    var named := Put(st, k, st.sessions[k].(clientId := id, cliPub := Some(cliPub)));
    var alone := ReleaseAll(named, Victims(named, k));
    var s := alone.sessions[k];
    if s.ipAssigned then Admitting(alone, k, env)
    else
      var given := AllocateVip(alone, id, env.draws);
      if given.ip == 0 then Deny(given.st, k, 0, env.sendOk)
      else Admitting(Assign(given.st, k, given.ip), k, env)
  }

  /** The gate opens for a session that has its address. */
  function OpenGate(st: Server, k: PeerKey): Server
    requires k in st.sessions
  {
    var s := st.sessions[k].(authenticated := true, handshaked := true, stage := Authed);
    Put(st, k, s).(bindings := st.bindings + {BindingOf(k, s, st.cfg.prefix)})
  }

  function Admitting(st: Server, k: PeerKey, env: Env): Server
    requires k in st.sessions
  {
    SendSealed(OpenGate(st, k), k, MIdentityOk, InIdentityOk(st.sessions[k].vip, st.cfg.prefix), env.sendOk)
  }

  function HandleIdentity(st: Server, k: PeerKey, msg: Option<IdentityMsg>, env: Env): Server
    requires k in st.sessions
  {
    var s := st.sessions[k];
    if s.authenticated then SendSealed(st, k, MIdentityOk, InIdentityOk(s.vip, st.cfg.prefix), env.sendOk)
    else if msg.None? || !IdentityHolds(s, msg.value) then Deny(st, k, 0, env.sendOk)
    else
      match ConsultRegistry(st, msg.value, env)
      case Rejected(st', reason) => Deny(st', k, reason, env.sendOk)
      case Registered(st') =>
        if env.svcRefuses then Deny(st', k, 2, env.sendOk)
        else LogIn(st', k, msg.value.text.clientId, msg.value.text.cliPub, env)
  }

  // ---- receiving ------------------------------------------------------------------------------

  function HandleData(st: Server, k: PeerKey, src: Option<nat>, env: Env): Server
    requires k in st.sessions
  {
    var s := st.sessions[k];
    if !s.authenticated then st
    else if src.None? || !s.ipAssigned || src.value != s.vip then st
    else if env.svcCuts then Release(st, k)
    else if env.svcDrops then st
    else st.(uplinks := st.uplinks + [Uplink(k, src.value)])
  }

  function HandleInner(st: Server, k: PeerKey, inner: Inner, env: Env): Server
    requires k in st.sessions
  {
    match inner
    case InData(src) => HandleData(st, k, src, env)
    case InHeart => SendSealed(st, k, MHeartResponse, InHeartResponse, env.sendOk)
    case InIdentity(msg) => HandleIdentity(st, k, msg, env)
    case InDisconnect => if k.tcp then Put(st, k, st.sessions[k].(tcpDrop := true)) else Release(st, k)
    case _ => st
  }

  function HandleSealed(st: Server, k: PeerKey, f: Frame, env: Env): Server
    requires k in st.sessions
  {
    var s := st.sessions[k];
    if !s.encReady || s.replay.TooOld(f.hdr.seqNo) then st
    else
      match Unseal(s.keyC2S, f)
      case None => st
      case Some(inner) =>
        if !s.replay.Accepts(f.hdr.seqNo) then st
        else HandleInner(Put(st, k, s.(replay := s.replay.Offer(f.hdr.seqNo))), k, inner, env)
  }

  /** handle_framed on a live session. A released session ignores every frame. */
  function HandleFramed(st: Server, k: PeerKey, f: Frame, env: Env): Server
    requires k in st.sessions
  {
    if f.hdr.version != (if k.tcp then V_TCP else V_UDP) then st
    else if SealedType(f.hdr.typ) then HandleSealed(st, k, f, env)
    else if f.payload.Open? && f.hdr.typ.MAuthHello? then HandleAuthHello(st, k, f.payload.clear, env)
    else if f.payload.Open? && f.hdr.typ.MClientHello? then HandleClientHello(st, k, f.payload.clear, env)
    else st
  }

  // ---- routing ---------------------------------------------------------------------------------

  /** forward_tun_packet: the session a downlink packet goes to. */
  function Route(st: Server, dst: nat): Option<PeerKey>
  {
    if dst in st.vipToKey && st.vipToKey[dst] in st.sessions && st.sessions[st.vipToKey[dst]].authenticated
    then Some(st.vipToKey[dst]) else None
  }
}
