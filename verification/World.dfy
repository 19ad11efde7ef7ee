/** Both ends and the network between them. A frame once sent may be lost, repeated,
    reordered or misdelivered. Outsiders may add unsealed frames, and frames sealed
    under any key that one of their own ephemeral keys goes into; only the signatures
    and ephemeral keys of others cannot be made up. */
module Worlds {
  import opened Text
  import opened Replay
  import opened Protocol
  import opened ServerSpec
  import opened ServerInv
  import opened ServerSteps
  import opened ServerMoves
  import opened ServerRuns
  import C = ClientSpec

  /** One key derivation by a client. It is filed under the client's ephemeral key. */
  datatype Derivation = Derivation(nonceC: Nonce, nonceS: Nonce, dhSrv: Pub, account: C.Account)

  datatype World = World(
    server: Server,
    clients: map<nat, C.Client>,
    net: set<Frame>,
    // ----
    foreign: set<Priv>,
    foreignIds: set<SigKey>,
    made: set<Priv>,
    derived: map<Pub, Derivation>)

  datatype Happening =
    | AtServer(e: Event)
    | Start(i: nat, account: C.Account, tcp: bool, nonceC: Nonce)
    | Greet(i: nat, net: C.Net)
    | Derive(i: nat, ephemeral: Option<Priv>, dhOk: bool, net: C.Net)
    | Identify(i: nat, signOk: bool, net: C.Net)
    | Repeat(i: nat, first: C.Net, second: C.Net)
    | Conclude(i: nat)
    | TimeOut(i: nat)
    | Transmit(i: nat, inner: Inner, net: C.Net)
    | Leave(i: nat, net: C.Net)
    | Hear(i: nat, frame: Frame, net: C.Net)
    | Inject(frame: Frame)

  /** A signature in the server's name has been on the network before. */
  ghost predicate SignedBefore(w: World, sig: Signature)
  {
    exists g :: g in w.net && g.payload.Open? && g.payload.clear.ServerHello? && g.payload.clear.sig == sig
  }

  /** One end of this key's secret is an outsider's. */
  ghost predicate Foreign(w: World, key: SessionKey)
  {
    exists e :: e in w.foreign && Pub(e) in key.secret.ends
  }

  /** An identity message with this signature has been on the network before. */
  ghost predicate ClaimedBefore(w: World, sig: Signature)
  {
    exists g :: g in w.net && g.payload.Sealed? && g.payload.inner.InIdentity?
                && g.payload.inner.msg.Some? && g.payload.inner.msg.value.sig == sig
  }

  /** What an outsider can put on the network: any clear payload and anything sealed
      under keys it can derive, but for signatures it can neither make nor repeat. */
  ghost predicate MayInject(w: World, f: Frame)
  {
    match f.payload
    case Open(clear) =>
      (clear.ServerHello? && clear.sig.Signature? ==>
         Some(clear.sig.signer) != w.server.cfg.signKey || SignedBefore(w, clear.sig))
    case Sealed(key, _, inner) =>
      Foreign(w, key)
      && (inner.InIdentity? && inner.msg.Some? && inner.msg.value.sig.Signature? && inner.msg.value.sig.text.IdentityText? ==>
            inner.msg.value.sig.signer in w.foreignIds || ClaimedBefore(w, inner.msg.value.sig))
  }

  /** Ephemeral keys are never made twice, by either side; what arrives was sent. */
  ghost predicate May(w: World, h: Happening)
  {
    match h
    case AtServer(e) =>
      && Possible(w.server, e)
      && (e.Arrive? ==> e.frame in w.net && (e.env.ephemeral.Some? ==> e.env.ephemeral.value !in w.made + w.foreign))
    case Derive(i, e, _, _) => i in w.clients && (e.Some? ==> e.value !in w.made + w.foreign + w.server.issued)
    case Hear(i, f, _) => i in w.clients && f in w.net
    case Inject(f) => MayInject(w, f)
    case Start(_, _, _, _) => true
    case _ => h.i in w.clients
  }

  function NoClient(): C.Client
  {
    C.Client(false, C.Account(None, None, "", ""), C.Stopped, 0, None, None, None, None, None, None,
             false, false, false, false, false, false, -1, 0, 24, None, 0, FRESH, [])
  }

  function FramesOf(out: seq<Sent>): set<Frame>
  {
    set i | 0 <= i < |out| :: out[i].frame
  }

  /** A client acted: its new state is filed and its frames are on the network. */
  function Acted(w: World, i: nat, a: C.Act): World
  {
    w.(clients := w.clients[i := a.c], net := w.net + (set j | 0 <= j < |a.sent| :: a.sent[j]))
  }

  function ClientAct(c: C.Client, h: Happening): C.Act
  {
    match h
    case Greet(_, net) => C.Greet(c, net)
    case Derive(_, e, dhOk, net) => C.Derive(c, e, dhOk, net)
    case Identify(_, signOk, net) => C.Identify(c, signOk, net)
    case Repeat(_, first, second) => C.Repeat(c, first, second)
    case Conclude(_) => C.Act(C.Conclude(c), [])
    case TimeOut(_) => C.Act(C.TimeOut(c), [])
    case Transmit(_, inner, net) => C.Transmit(c, inner, net)
    case Leave(_, net) => C.Leave(c, net)
    case Hear(_, f, net) => C.HandleFrame(c, f, net)
    case _ => C.Act(c, [])
  }

  function DerivationOf(c: C.Client): Derivation
    requires c.nonceS.Some? && c.dhSrv.Some?
  {
    Derivation(c.nonceC, c.nonceS.value, c.dhSrv.value, c.account)
  }

  function Next(w: World, h: Happening): World
  {
    match h
    case AtServer(e) =>
      var server := Step(w.server, e);
      w.(server := server, net := w.net + FramesOf(server.out))
    case Start(i, account, tcp, nonceC) =>
      var previous := if i in w.clients then w.clients[i] else NoClient();
      w.(clients := w.clients[i := C.Start(previous, account, tcp, nonceC)])
    case Inject(f) => w.(net := w.net + {f})
    case _ =>
      if h.i in w.clients then Noted(Acted(w, h.i, ClientAct(w.clients[h.i], h)), w.clients[h.i], h) else w
  }

  /** Keep a record of keys made and derived. */
  function Noted(w: World, before: C.Client, h: Happening): World
    requires h.Greet? || h.Derive? || h.Identify? || h.Repeat? || h.Conclude? || h.TimeOut? || h.Transmit? || h.Leave? || h.Hear?
    requires h.i in w.clients
  {
    var c := w.clients[h.i];
    if !h.Derive? || h.ephemeral.None? then w
    else
      var v := w.(made := w.made + {h.ephemeral.value});
      if before.phase.Greeting? && c.phase.Deriving? && c.nonceS.Some? && c.dhSrv.Some?
      then v.(derived := v.derived[Pub(h.ephemeral.value) := DerivationOf(c)]) else v
  }

  ghost predicate Began(w: World)
  {
    Started(w.server) && w.clients == map[] && w.net == {} && w.made == {} && w.derived == map[]
  }

  /** An execution: the worlds it passes through and what happened between them. */
  ghost predicate Execution(ws: seq<World>, hs: seq<Happening>)
  {
    && |ws| == |hs| + 1 && Began(ws[0])
    && forall i :: 0 <= i < |hs| ==> May(ws[i], hs[i]) && ws[i + 1] == Next(ws[i], hs[i])
  }
}
