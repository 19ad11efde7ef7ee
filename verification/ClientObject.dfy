/** The client as it runs (src/UDP.cpp): one object whose fields the sending and the
    receiving thread update in place. Every method is tied to the function of
    ClientSpec that it refines. */
module TunnelClients {
  import opened Text
  import opened Replay
  import opened Protocol
  import Spec = ClientSpec

  class TunnelClient {
    const replay: ReplayWindow
    var tcp: bool
    var account: Spec.Account
    var phase: Spec.Phase
    var nonceC: Nonce
    var nonceS: Option<Nonce>
    var dhPriv: Option<Priv>
    var dhCli: Option<Pub>
    var dhSrv: Option<Pub>
    var keyC2S: Option<SessionKey>
    var keyS2C: Option<SessionKey>
    var encReady: bool
    var helloOk: bool
    var authFailed: bool
    var needReconnect: bool
    var authenticated: bool
    var handshaked: bool
    var denyReason: int
    var assignedIp: nat
    var assignedPrefix: nat
    var identityMsg: Option<IdentityMsg>
    var seqNo: nat
    var received: seq<Option<nat>>
    var sent: seq<Frame>

    ghost function View(): Spec.Client
      reads this, replay
    {
      Spec.Client(tcp, account, phase, nonceC, nonceS, dhPriv, dhCli, dhSrv, keyC2S, keyS2C,
                  encReady, helloOk, authFailed, needReconnect, authenticated, handshaked, denyReason,
                  assignedIp, assignedPrefix, identityMsg, seqNo, replay.View(), received)
    }

    ghost predicate Valid()
      reads this, replay
    {
      replay.Valid()
    }

    constructor ()
      ensures Valid() && fresh(replay) && View().phase.Stopped? && sent == []
    {
      replay := new ReplayWindow();
      tcp, account, phase, nonceC := false, Spec.Account(None, None, "", ""), Spec.Stopped, 0;
      assignedIp, assignedPrefix, sent := 0, 24, [];
    }

    /** The state together with every frame sent so far. */
    ghost function Now(): Spec.Act
      reads this, replay
    {
      Spec.Act(View(), sent)
    }

    lemma Parts()
      ensures var v := View();
              && v.tcp == tcp && v.account == account && v.phase == phase && v.nonceC == nonceC && v.nonceS == nonceS
              && v.dhPriv == dhPriv && v.dhCli == dhCli && v.dhSrv == dhSrv && v.keyC2S == keyC2S && v.keyS2C == keyS2C
              && v.encReady == encReady && v.helloOk == helloOk && v.authFailed == authFailed
              && v.needReconnect == needReconnect && v.authenticated == authenticated && v.handshaked == handshaked
              && v.identityMsg == identityMsg && v.seqNo == seqNo && v.replay == replay.View() && v.received == received
              && v.denyReason == denyReason && v.assignedIp == assignedIp && v.assignedPrefix == assignedPrefix
    {
    }

    // ---- single updates -----------------------------------------------------------

    method AskReconnect()
      modifies this`needReconnect
      ensures View() == Spec.TimeOut(old(View())) && Valid() == old(Valid())
    {
      needReconnect := true;
    }

    method TakeNumber() returns (n: nat)
      modifies this`seqNo
      ensures n == old(seqNo) && View() == Numbered(old(View())) && Valid() == old(Valid())
    {
      n := seqNo;
      seqNo := (seqNo + 1) % SEQ_WORD;
    }

    method MakeKey(e: Priv)
      modifies this`dhPriv, this`dhCli
      ensures View() == old(View()).(dhPriv := Some(e), dhCli := Some(Pub(e))) && Valid() == old(Valid())
    {
      dhPriv := Some(e);
      dhCli := Some(Pub(e));
    }

    method TakeKeys(secret: Secret)
      requires nonceS.Some?
      modifies this`keyC2S, this`keyS2C
      ensures View() == Keyed(old(View()), secret) && Valid() == old(Valid())
    {
      keyC2S := Some(SessionKey(Tx, secret, nonceC, nonceS.value));
      keyS2C := Some(SessionKey(Rx, secret, nonceC, nonceS.value));
    }

    method OpenTunnel()
      modifies this`encReady, this`phase
      ensures View() == old(View()).(encReady := true, phase := Spec.Deriving) && Valid() == old(Valid())
    {
      encReady := true;
      phase := Spec.Deriving;
    }

    method Stop()
      modifies this`needReconnect, this`phase
      ensures View() == Spec.Stop(old(View())) && Valid() == old(Valid())
    {
      needReconnect := true;
      phase := Spec.Stopped;
    }

    // ---- connecting ------------------------------------------------------------------

    method ResetFlags()
      modifies this`handshaked, this`authenticated, this`authFailed, this`denyReason, this`helloOk, this`encReady, this`needReconnect
      ensures !handshaked && !authenticated && !authFailed && denyReason == -1 && !helloOk && !encReady && !needReconnect
    {
      handshaked := false;
      authenticated := false;
      authFailed := false;
      denyReason := -1;
      helloOk := false;
      encReady := false;
      needReconnect := false;
    }

    method ResetKeys()
      modifies this`nonceS, this`dhCli, this`dhSrv, this`dhPriv, this`keyC2S, this`keyS2C
      ensures nonceS == None && dhCli == None && dhSrv == None && dhPriv == None && keyC2S == None && keyS2C == None
    {
      nonceS := None;
      dhCli := None;
      dhSrv := None;
      dhPriv := None;
      keyC2S := None;
      keyS2C := None;
    }

    method Forget()
      modifies this
      ensures !handshaked && !authenticated && !authFailed && denyReason == -1 && !helloOk && !encReady && !needReconnect
      ensures nonceS == None && dhCli == None && dhSrv == None && dhPriv == None && keyC2S == None && keyS2C == None
      ensures assignedIp == old(assignedIp) && assignedPrefix == old(assignedPrefix) && sent == old(sent)
    {
      ResetFlags();
      ResetKeys();
    }

    method Prepare(a: Spec.Account, overTcp: bool, nonce: Nonce)
      modifies this`tcp, this`account, this`phase, this`nonceC, this`seqNo, this`identityMsg, this`received
      ensures tcp == overTcp && account == a && phase == Spec.Greeting && nonceC == nonce && seqNo == 0
      ensures identityMsg == None && received == []
    {
      tcp := overTcp;
      account := a;
      phase := Spec.Greeting;
      nonceC := nonce;
      seqNo := 0;
      identityMsg := None;
      received := [];
    }

    method Clean(a: Spec.Account, overTcp: bool, nonce: Nonce)
      modifies this
      ensures View() == Spec.Start(old(View()), a, overTcp, nonce).(replay := old(View()).replay) && sent == old(sent)
      ensures Valid() == old(Valid())
    {
      Forget();
      Prepare(a, overTcp, nonce);
    }

    /** init: everything of the previous connection goes, but for the address. */
    method Init(a: Spec.Account, overTcp: bool, nonce: Nonce)
      modifies this, replay
      ensures Valid() && View() == Spec.Start(old(View()), a, overTcp, nonce) && sent == old(sent)
    {
      hide ReplayWindow.View, ReplayWindow.Valid;
      replay.Reset();
      Clean(a, overTcp, nonce);
    }

    // ---- sending ----------------------------------------------------------------------

    method SendPacket(typ: MsgType, inner: Inner, clear: Clear, net: Spec.Net)
      requires Valid()
      modifies this`seqNo, this`needReconnect, this`sent
      ensures Valid() && Now() == old(Now()).Then(Spec.Send(old(View()), typ, inner, clear, net))
    {
      var n := TakeNumber();
      if n >= SEQ_REKEY_LIMIT {
        AskReconnect();
        return;
      }
      var hdr := Header(if tcp then V_TCP else V_UDP, typ, n);
      if net.PeerGone? {
        AskReconnect();
      }
      if !net.Handed? {
        return;
      }
      if encReady && SealedType(typ) {
        if keyC2S.None? {
          return;
        }
        sent := sent + [Frame(hdr, Sealed(keyC2S.value, hdr, inner))];
        return;
      }
      sent := sent + [Frame(hdr, Open(clear))];
    }

    // ---- the phases of send_work ---------------------------------------------------------

    method Greet(net: Spec.Net)
      requires Valid()
      modifies this`seqNo, this`needReconnect, this`sent
      ensures Valid() && Now() == old(Now()).Then(Spec.Greet(old(View()), net))
    {
      hide View, Spec.Send;
      Parts();
      if phase != Spec.Greeting || helloOk || authFailed || needReconnect {
        return;
      }
      SendPacket(MAuthHello, InOther, Hello(nonceC), net);
    }

    method Derive(e: Option<Priv>, dhOk: bool, net: Spec.Net)
      requires Valid()
      modifies this
      ensures Valid() && Now() == old(Now()).Then(Spec.Derive(old(View()), e, dhOk, net))
    {
      hide View, Spec.Send;
      Parts();
      if phase != Spec.Greeting || !helloOk || authFailed || needReconnect {
        return;
      }
      if e.None? {
        Stop();
        return;
      }
      MakeKey(e.value);
      SendPacket(MClientHello, InOther, ClientHello(Pub(e.value)), net);
      DeriveFrom(e.value, dhOk);
    }

    /** Keys from the server values stored now, if there are any. */
    method DeriveFrom(e: Priv, dhOk: bool)
      requires Valid()
      modifies this
      ensures Valid() && sent == old(sent)
      ensures var d := old(View());
              View() == if d.dhSrv.None? || d.nonceS.None? || !dhOk then Spec.Stop(d)
                        else Keyed(d, Dh(e, d.dhSrv.value)).(encReady := true, phase := Spec.Deriving)
    {
      hide View;
      Parts();
      if dhSrv.None? || nonceS.None? || !dhOk {
        Stop();
        return;
      }
      TakeKeys(Dh(e, dhSrv.value));
      OpenTunnel();
    }

    /** The identity message for the values stored now. */
    method BuildIdentity() returns (m: Option<IdentityMsg>)
      ensures m == Spec.BuildIdentity(View())
    {
      if account.identity.None? {
        return None;
      }
      if nonceS.None? || dhCli.None? || dhSrv.None? {
        return None;
      }
      if |account.clientId| > Spec.ID_MAX {
        return None;
      }
      var text := IdentityText(nonceC, nonceS.value, dhCli.value, dhSrv.value, account.identity.value, account.clientId);
      if |account.token| > Spec.ID_MAX {
        return None;
      }
      return Some(IdentityMsg(if account.token == "" then 0 else 1, account.token, text, Signature(account.identity.value, text)));
    }

    method Identify(signOk: bool, net: Spec.Net)
      requires Valid()
      modifies this
      ensures Valid() && Now() == old(Now()).Then(Spec.Identify(old(View()), signOk, net))
    {
      hide View, Spec.Send, Spec.BuildIdentity;
      Parts();
      if phase != Spec.Deriving {
        return;
      }
      var m := BuildIdentity();
      if m.None? || !signOk {
        Stop();
        return;
      }
      Tell(m);
      SendPacket(MIdentity, InIdentity(m), Junk, net);
    }

    method Tell(m: Option<IdentityMsg>)
      modifies this`phase, this`identityMsg
      ensures View() == old(View()).(phase := Spec.Identifying, identityMsg := m) && Valid() == old(Valid())
    {
      phase := Spec.Identifying;
      identityMsg := m;
    }

    /** The client's own key may have been lost: repeat it before the message. */
    method Repeat(first: Spec.Net, second: Spec.Net)
      requires Valid()
      modifies this`seqNo, this`needReconnect, this`sent
      ensures Valid() && Now() == old(Now()).Then(Spec.Repeat(old(View()), first, second))
    {
      hide View, Spec.Send;
      Parts();
      if phase != Spec.Identifying || authenticated || authFailed || needReconnect {
        return;
      }
      if dhCli.Some? {
        SendPacket(MClientHello, InOther, ClientHello(dhCli.value), first);
        Parts();
      }
      SendPacket(MIdentity, InIdentity(identityMsg), Junk, second);
    }

    method Conclude()
      requires Valid()
      modifies this
      ensures Valid() && View() == Spec.Conclude(old(View())) && sent == old(sent)
    {
      if phase != Spec.Identifying {
        return;
      }
      if authenticated {
        handshaked := true;
        phase := Spec.Online;
      } else if authFailed || needReconnect {
        needReconnect := true;
        phase := Spec.Stopped;
      }
    }

    method Transmit(inner: Inner, net: Spec.Net)
      requires Valid()
      modifies this`seqNo, this`needReconnect, this`sent
      ensures Valid() && Now() == old(Now()).Then(Spec.Transmit(old(View()), inner, net))
    {
      hide View, Spec.Send;
      Parts();
      if phase != Spec.Online || needReconnect {
        return;
      }
      if inner.InData? {
        SendPacket(MData, inner, Junk, net);
      } else {
        SendPacket(MHeart, InHeart, Junk, net);
      }
    }

    method Leave(net: Spec.Net)
      requires Valid()
      modifies this
      ensures Valid() && Now() == old(Now()).Then(Spec.Leave(old(View()), net))
    {
      hide View, Spec.Send;
      Parts();
      if phase != Spec.Online || !handshaked || needReconnect {
        return;
      }
      SendPacket(MDisconnect, InDisconnect, Junk, net);
      Rest();
    }

    method Rest()
      modifies this`phase
      ensures View() == old(View()).(phase := Spec.Stopped) && Valid() == old(Valid())
    {
      phase := Spec.Stopped;
    }

    // ---- receiving -----------------------------------------------------------------------------

    /** The server's values are stored first and verified afterwards. */
    method HandleServerHello(p: Clear)
      requires Valid()
      modifies this`nonceS, this`dhSrv, this`helloOk, this`authFailed
      ensures Valid() && View() == Spec.HandleServerHello(old(View()), p)
    {
      if !p.ServerHello? {
        return;
      }
      hide View;
      Parts();
      Store(p.nonceS, p.dhSrv);
      if account.serverKey.None? {
        Distrust();
        return;
      }
      if !Verifies(account.serverKey.value, HelloText(nonceC, p.nonceS, p.dhSrv), p.sig) {
        Distrust();
        return;
      }
      Trust();
    }

    method Store(n: Nonce, d: Pub)
      modifies this`nonceS, this`dhSrv
      ensures View() == old(View()).(nonceS := Some(n), dhSrv := Some(d)) && Valid() == old(Valid())
    {
      nonceS := Some(n);
      dhSrv := Some(d);
    }

    method Trust()
      modifies this`helloOk
      ensures View() == old(View()).(helloOk := true) && Valid() == old(Valid())
    {
      helloOk := true;
    }

    method Distrust()
      modifies this`authFailed
      ensures View() == old(View()).(authFailed := true) && Valid() == old(Valid())
    {
      authFailed := true;
    }

    method HandleInner(inner: Inner, net: Spec.Net)
      requires Valid()
      modifies this
      ensures Valid() && Now() == old(Now()).Then(Spec.HandleInner(old(View()), inner, net))
    {
      hide Spec.Send;
      match inner {
        case InData(src) => received := received + [src];
        case InHeart => SendPacket(MHeartResponse, InHeartResponse, Junk, net);
        case InIdentityOk(vip, prefix) => Welcome(vip, prefix);
        case InIdentityDeny(reason) => Denied(reason);
        case InDisconnect => needReconnect := true;
        case _ =>
      }
    }

    method Welcome(vip: nat, prefix: nat)
      modifies this`authenticated, this`assignedIp, this`assignedPrefix
      ensures View() == old(View()).(authenticated := true, assignedIp := vip, assignedPrefix := prefix) && Valid() == old(Valid())
    {
      authenticated := true;
      assignedIp := vip;
      assignedPrefix := prefix;
    }

    method Denied(reason: nat)
      modifies this`denyReason, this`authFailed
      ensures View() == old(View()).(denyReason := reason, authFailed := true) && Valid() == old(Valid())
    {
      denyReason := reason;
      authFailed := true;
    }

    method Offer(n: nat) returns (ok: bool)
      requires Valid() && n < SEQ_LIMIT
      modifies replay
      ensures Valid() && ok == old(View()).replay.Accepts(n)
      ensures View() == old(View()).(replay := old(View()).replay.Offer(n))
    {
      ok := replay.Accept(n);
    }

    method HandleFrame(f: Frame, net: Spec.Net)
      requires Valid() && f.hdr.seqNo < SEQ_LIMIT
      modifies this, replay
      ensures Valid() && Now() == old(Now()).Then(Spec.HandleFrame(old(View()), f, net))
    {
      hide View, Spec.Send, Spec.HandleInner, Spec.HandleServerHello, Unseal;
      Parts();
      if f.hdr.version != (if tcp then V_TCP else V_UDP) {
        return;
      }
      if SealedType(f.hdr.typ) {
        HandleSealed(f, net);
      } else if f.hdr.typ == MServerHello && f.payload.Open? {
        HandleServerHello(f.payload.clear);
      }
    }

    method HandleSealed(f: Frame, net: Spec.Net)
      requires Valid() && f.hdr.seqNo < SEQ_LIMIT
      requires SealedType(f.hdr.typ) && f.hdr.version == (if View().tcp then V_TCP else V_UDP)
      modifies this, replay
      ensures Valid() && Now() == old(Now()).Then(Spec.HandleFrame(old(View()), f, net))
    {
      hide View, Spec.Send, Spec.HandleInner, Spec.HandleFrame, Unseal, SealedType;
      Parts();
      SealedIs(View(), f, net);
      if !encReady {
        return;
      }
      var tooOld := replay.TooOld(f.hdr.seqNo);
      if tooOld {
        return;
      }
      var plain := Unseal(keyS2C, f);
      if plain.None? {
        return;
      }
      var ok := Offer(f.hdr.seqNo);
      if !ok {
        return;
      }
      HandleInner(plain.value, net);
    }
  }

  lemma SealedIs(c: Spec.Client, f: Frame, net: Spec.Net)
    requires SealedType(f.hdr.typ) && f.hdr.version == (if c.tcp then V_TCP else V_UDP)
    ensures var n := f.hdr.seqNo;
            Spec.HandleFrame(c, f, net) ==
              if !c.encReady || c.replay.TooOld(n) || Unseal(c.keyS2C, f).None? || !c.replay.Accepts(n) then Spec.Act(c, [])
              else Spec.HandleInner(c.(replay := c.replay.Offer(n)), Unseal(c.keyS2C, f).value, net)
    ensures !c.replay.Accepts(f.hdr.seqNo) ==> c.(replay := c.replay.Offer(f.hdr.seqNo)) == c
  {
    hide Unseal, SealedType, Spec.HandleInner;
  }

  function Numbered(c: Spec.Client): Spec.Client
  {
    c.(seqNo := (c.seqNo + 1) % SEQ_WORD)
  }

  function Keyed(c: Spec.Client, secret: Secret): Spec.Client
    requires c.nonceS.Some?
  {
    c.(keyC2S := Some(SessionKey(Tx, secret, c.nonceC, c.nonceS.value)),
       keyS2C := Some(SessionKey(Rx, secret, c.nonceC, c.nonceS.value)))
  }
}
