/** The client's side of the tunnel (src/UDP.cpp) as functions from state to state:
    the phases of send_work and the frame handler. */
module ClientSpec {
  import opened Text
  import opened Replay
  import opened Protocol

  const ID_MAX: nat := 255

  /** Where the sending thread stands. */
  datatype Phase = Greeting | Deriving | Identifying | Online | Stopped

  datatype Account = Account(serverKey: Option<SigKey>, identity: Option<SigKey>, clientId: string, token: string)

  datatype Client = Client(
    tcp: bool, account: Account, phase: Phase,
    nonceC: Nonce, nonceS: Option<Nonce>,
    dhPriv: Option<Priv>, dhCli: Option<Pub>, dhSrv: Option<Pub>,
    keyC2S: Option<SessionKey>, keyS2C: Option<SessionKey>,
    encReady: bool, helloOk: bool, authFailed: bool, needReconnect: bool,
    authenticated: bool, handshaked: bool, denyReason: int,
    assignedIp: nat, assignedPrefix: nat,
    identityMsg: Option<IdentityMsg>,
    seqNo: nat, replay: Window,
    received: seq<Option<nat>>)

  /** How handing a frame to the socket went. */
  datatype Net = Handed | Refused | PeerGone

  /** A step's new state and the frames it sent. */
  datatype Act = Act(c: Client, sent: seq<Frame>) {
    function Then(next: Act): Act
    {
      Act(next.c, sent + next.sent)
    }
  }

  /** init: every connection starts from a clean state and a new nonce. The address
      of the previous connection stays until the server announces another. */
  function Start(c: Client, account: Account, tcp: bool, nonceC: Nonce): Client
  {
    c.(tcp := tcp, account := account, phase := Greeting,
       nonceC := nonceC, nonceS := None, dhPriv := None, dhCli := None, dhSrv := None,
       keyC2S := None, keyS2C := None, encReady := false, helloOk := false, authFailed := false,
       needReconnect := false, authenticated := false, handshaked := false, denyReason := -1,
       identityMsg := None, seqNo := 0, replay := FRESH, received := [])
  }

  function Send(c: Client, typ: MsgType, inner: Inner, clear: Clear, net: Net): Act
  {
    var numbered := c.(seqNo := (c.seqNo + 1) % SEQ_WORD);
    if c.seqNo >= SEQ_REKEY_LIMIT then Act(numbered.(needReconnect := true), [])
    else
      var after := if net.PeerGone? then numbered.(needReconnect := true) else numbered;
      var hdr := Header(if c.tcp then V_TCP else V_UDP, typ, c.seqNo);
      if !net.Handed? then Act(after, [])
      else if c.encReady && SealedType(typ) then
        if c.keyC2S.None? then Act(numbered, []) else Act(after, [Frame(hdr, Sealed(c.keyC2S.value, hdr, inner))])
      else Act(after, [Frame(hdr, Open(clear))])
  }

  predicate Waiting(c: Client)
  {
    !c.authFailed && !c.needReconnect
  }

  /** Phase 1a, and its retransmission with the same nonce. */
  function Greet(c: Client, net: Net): Act
  {
    if !c.phase.Greeting? || c.helloOk || !Waiting(c) then Act(c, [])
    else Send(c, MAuthHello, InOther, Hello(c.nonceC), net)
  }

  function Stop(c: Client): Client
  {
    c.(needReconnect := true, phase := Stopped)
  }

  /** Phases 1b and 2: make an ephemeral key, send it, derive the session keys from
      whatever server nonce and key are stored at this moment. */
  function Derive(c: Client, e: Option<Priv>, dhOk: bool, net: Net): Act
  {
    if !c.phase.Greeting? || !c.helloOk || !Waiting(c) then Act(c, [])
    else if e.None? then Act(Stop(c), [])
    else
      var hello := Send(c.(dhPriv := e, dhCli := Some(Pub(e.value))), MClientHello, InOther, ClientHello(Pub(e.value)), net);
      var d := hello.c;
      if d.dhSrv.None? || d.nonceS.None? || !dhOk then Act(Stop(d), hello.sent)
      else
        var secret := Dh(e.value, d.dhSrv.value);
        Act(d.(keyC2S := Some(SessionKey(Tx, secret, d.nonceC, d.nonceS.value)),
               keyS2C := Some(SessionKey(Rx, secret, d.nonceC, d.nonceS.value)),
               encReady := true, phase := Deriving), hello.sent)
  }

  /** The identity message for the values stored at this moment. */
  function BuildIdentity(c: Client): Option<IdentityMsg>
  {
    if c.account.identity.None? || c.nonceS.None? || c.dhCli.None? || c.dhSrv.None? then None
    else if |c.account.clientId| > ID_MAX || |c.account.token| > ID_MAX then None
    else
      var text := IdentityText(c.nonceC, c.nonceS.value, c.dhCli.value, c.dhSrv.value,
                               c.account.identity.value, c.account.clientId);
      Some(IdentityMsg(if c.account.token == "" then 0 else 1, c.account.token, text,
                       Signature(c.account.identity.value, text)))
  }

  /** Phase 3: the identity message is built once and sent. */
  function Identify(c: Client, signOk: bool, net: Net): Act
  {
    if !c.phase.Deriving? then Act(c, [])
    else if BuildIdentity(c).None? || !signOk then Act(Stop(c), [])
    else
      Send(c.(phase := Identifying, identityMsg := BuildIdentity(c)), MIdentity, InIdentity(BuildIdentity(c)), Junk, net)
  }

  /** The retransmission in phase 3: the ephemeral key first, then the same message. */
  function Repeat(c: Client, first: Net, second: Net): Act
  {
    if !c.phase.Identifying? || c.authenticated || !Waiting(c) then Act(c, [])
    else
      var hello := if c.dhCli.None? then Act(c, []) else Send(c, MClientHello, InOther, ClientHello(c.dhCli.value), first);
      hello.Then(Send(hello.c, MIdentity, InIdentity(c.identityMsg), Junk, second))
  }

  /** The end of phase 3. */
  function Conclude(c: Client): Client
  {
    if !c.phase.Identifying? then c
    else if c.authenticated then c.(handshaked := true, phase := Online)
    else if !Waiting(c) then Stop(c)
    else c
  }

  function TimeOut(c: Client): Client
  {
    c.(needReconnect := true)
  }

  /** The data phase: a packet from the TUN device, or a heartbeat. */
  function Transmit(c: Client, inner: Inner, net: Net): Act
  {
    if !c.phase.Online? || c.needReconnect then Act(c, [])
    else if inner.InData? then Send(c, MData, inner, Junk, net)
    else Send(c, MHeart, InHeart, Junk, net)
  }

  /** The goodbye of an orderly stop. */
  function Leave(c: Client, net: Net): Act
  {
    if !c.phase.Online? || !c.handshaked || c.needReconnect then Act(c, [])
    else
      var bye := Send(c, MDisconnect, InDisconnect, Junk, net);
      Act(bye.c.(phase := Stopped), bye.sent)
  }

  // ---- receiving ------------------------------------------------------------------

  function HandleInner(c: Client, inner: Inner, net: Net): Act
  {
    match inner
    case InData(src) => Act(c.(received := c.received + [src]), [])
    case InHeart => Send(c, MHeartResponse, InHeartResponse, Junk, net)
    case InIdentityOk(vip, prefix) => Act(c.(authenticated := true, assignedIp := vip, assignedPrefix := prefix), [])
    case InIdentityDeny(reason) => Act(c.(denyReason := reason, authFailed := true), [])
    case InDisconnect => Act(c.(needReconnect := true), [])
    case _ => Act(c, [])
  }

  /** A ServerHello overwrites the stored server values before it is verified. */
  function HandleServerHello(c: Client, p: Clear): Client
  {
    if !p.ServerHello? then c
    else
      var good := c.account.serverKey.Some?
                  && Verifies(c.account.serverKey.value, HelloText(c.nonceC, p.nonceS, p.dhSrv), p.sig);
      c.(nonceS := Some(p.nonceS), dhSrv := Some(p.dhSrv),
         helloOk := c.helloOk || good, authFailed := c.authFailed || !good)
  }

  function HandleFrame(c: Client, f: Frame, net: Net): Act
  {
    if f.hdr.version != (if c.tcp then V_TCP else V_UDP) then Act(c, [])
    else if SealedType(f.hdr.typ) then
      if !c.encReady || c.replay.TooOld(f.hdr.seqNo) then Act(c, [])
      else
        match Unseal(c.keyS2C, f)
        case None => Act(c, [])
        case Some(inner) =>
          if !c.replay.Accepts(f.hdr.seqNo) then Act(c, [])
          else HandleInner(c.(replay := c.replay.Offer(f.hdr.seqNo)), inner, net)
    else if f.hdr.typ.MServerHello? && f.payload.Open? then Act(HandleServerHello(c, f.payload.clear), [])
    else Act(c, [])
  }
}
