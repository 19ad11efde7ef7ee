/** What a client does when it should: what it sends, what it makes of each frame, and
    when it is online. */
module ClientProgress {
  import opened Text
  import opened Replay
  import opened Protocol
  import C = ClientSpec

  function Version(c: C.Client): nat
  {
    if c.tcp then V_TCP else V_UDP
  }

  /** The clear frame a client would send next. */
  function ClearBy(c: C.Client, typ: MsgType, clear: Clear): Frame
  {
    Frame(Header(Version(c), typ, c.seqNo), Open(clear))
  }

  function SealedBy(c: C.Client, typ: MsgType, inner: Inner): Frame
    requires c.keyC2S.Some?
  {
    Frame(Header(Version(c), typ, c.seqNo), Sealed(c.keyC2S.value, Header(Version(c), typ, c.seqNo), inner))
  }

  function Next(c: C.Client): C.Client
  {
    c.(seqNo := c.seqNo + 1)
  }

  lemma SealedGoesOut(c: C.Client, typ: MsgType, inner: Inner, clear: Clear)
    requires SealedType(typ) && c.encReady && c.keyC2S.Some? && c.seqNo < SEQ_REKEY_LIMIT
    ensures C.Send(c, typ, inner, clear, C.Handed) == C.Act(Next(c), [SealedBy(c, typ, inner)])
  {
  }

  lemma ClearGoesOut(c: C.Client, typ: MsgType, inner: Inner, clear: Clear)
    requires !SealedType(typ) && c.seqNo < SEQ_REKEY_LIMIT
    ensures C.Send(c, typ, inner, clear, C.Handed) == C.Act(Next(c), [ClearBy(c, typ, clear)])
  {
  }

  // ---- the phases ----------------------------------------------------------------------

  /** While it waits for a good ServerHello the client greets with its nonce. */
  lemma Greets(c: C.Client)
    requires c.phase.Greeting? && !c.helloOk && C.Waiting(c) && c.seqNo < SEQ_REKEY_LIMIT
    ensures C.Greet(c, C.Handed) == C.Act(Next(c), [ClearBy(c, MAuthHello, Hello(c.nonceC))])
  {
    ClearGoesOut(c, MAuthHello, InOther, Hello(c.nonceC));
    hide C.Send;
  }

  /** A ServerHello is taken for good exactly when the server's known key signed it over
      this client's nonce and the values it brings. */
  lemma HelloIff(c: C.Client, f: Frame, net: C.Net)
    requires f.hdr.version == Version(c) && f.hdr.typ.MServerHello? && f.payload.Open? && f.payload.clear.ServerHello?
    ensures var a, p := C.HandleFrame(c, f, net), f.payload.clear;
            var good := c.account.serverKey.Some? && p.sig == Signature(c.account.serverKey.value, HelloText(c.nonceC, p.nonceS, p.dhSrv));
            && a.sent == [] && a.c == c.(nonceS := Some(p.nonceS), dhSrv := Some(p.dhSrv),
                                         helloOk := c.helloOk || good, authFailed := c.authFailed || !good)
  {
  }

  /** After a good one the client sends its ephemeral key and derives both session keys
      over both public keys and both nonces. */
  lemma Derives(c: C.Client, e: Priv)
    requires c.phase.Greeting? && c.helloOk && C.Waiting(c) && c.nonceS.Some? && c.dhSrv.Some? && c.seqNo < SEQ_REKEY_LIMIT
    ensures var a := C.Derive(c, Some(e), true, C.Handed);
            var secret := Shared({Pub(e), c.dhSrv.value});
            && a.sent == [ClearBy(c, MClientHello, ClientHello(Pub(e)))]
            && a.c == c.(dhPriv := Some(e), dhCli := Some(Pub(e)), seqNo := c.seqNo + 1,
                         keyC2S := Some(SessionKey(Tx, secret, c.nonceC, c.nonceS.value)),
                         keyS2C := Some(SessionKey(Rx, secret, c.nonceC, c.nonceS.value)),
                         encReady := true, phase := C.Deriving)
  {
    ClearGoesOut(c.(dhPriv := Some(e), dhCli := Some(Pub(e))), MClientHello, InOther, ClientHello(Pub(e)));
    hide C.Send;
  }

  /** The signed message for the values a client has stored. */
  function MessageOf(c: C.Client): IdentityMsg
    requires c.nonceS.Some? && c.dhCli.Some? && c.dhSrv.Some? && c.account.identity.Some?
  {
    var text := IdentityText(c.nonceC, c.nonceS.value, c.dhCli.value, c.dhSrv.value, c.account.identity.value, c.account.clientId);
    IdentityMsg(if c.account.token == "" then 0 else 1, c.account.token, text, Signature(c.account.identity.value, text))
  }

  predicate Nameable(c: C.Client)
  {
    c.account.identity.Some? && |c.account.clientId| <= 255 && |c.account.token| <= 255
  }

  /** Then it sends its identity, sealed, and once more each time it repeats. */
  lemma Identifies(c: C.Client)
    requires c.phase.Deriving? && c.encReady && c.keyC2S.Some? && c.seqNo < SEQ_REKEY_LIMIT
    requires c.nonceS.Some? && c.dhCli.Some? && c.dhSrv.Some? && Nameable(c)
    ensures C.Identify(c, true, C.Handed)
            == C.Act(Next(c).(phase := C.Identifying, identityMsg := Some(MessageOf(c))), [SealedBy(c, MIdentity, InIdentity(Some(MessageOf(c))))])
  {
    assert C.BuildIdentity(c) == Some(MessageOf(c));
    SealedGoesOut(c.(phase := C.Identifying, identityMsg := Some(MessageOf(c))), MIdentity, InIdentity(Some(MessageOf(c))), Junk);
    hide C.Send;
  }

  lemma Repeats(c: C.Client)
    requires c.phase.Identifying? && !c.authenticated && C.Waiting(c) && c.encReady && c.keyC2S.Some? && c.dhCli.Some?
    requires c.seqNo + 1 < SEQ_REKEY_LIMIT
    ensures C.Repeat(c, C.Handed, C.Handed)
            == C.Act(Next(Next(c)), [ClearBy(c, MClientHello, ClientHello(c.dhCli.value)), SealedBy(Next(c), MIdentity, InIdentity(c.identityMsg))])
  {
    ClearGoesOut(c, MClientHello, InOther, ClientHello(c.dhCli.value));
    SealedGoesOut(Next(c), MIdentity, InIdentity(c.identityMsg), Junk);
    hide C.Send;
  }

  /** The identity stage ends online exactly for a client that was let in. */
  lemma OnlineIff(c: C.Client)
    requires c.phase.Identifying?
    ensures C.Conclude(c).phase.Online? <==> c.authenticated
    ensures c.authenticated ==> C.Conclude(c) == c.(handshaked := true, phase := C.Online)
    ensures C.Conclude(c).phase.Stopped? <==> !c.authenticated && (c.authFailed || c.needReconnect)
  {
  }

  // ---- sealed frames heard ----------------------------------------------------------------

  /** What a frame says to a client: it opens under its key and its number is one the
      window accepts. */
  function Says(c: C.Client, f: Frame): Option<Inner>
  {
    if f.hdr.version == Version(c) && SealedType(f.hdr.typ) && c.encReady && c.replay.Accepts(f.hdr.seqNo)
    then Unseal(c.keyS2C, f) else None
  }

  function Counting(c: C.Client, f: Frame): C.Client
  {
    c.(replay := c.replay.Offer(f.hdr.seqNo))
  }

  lemma SealedIs(c: C.Client, f: Frame, net: C.Net)
    ensures Says(c, f).Some? ==> C.HandleFrame(c, f, net) == C.HandleInner(Counting(c, f), Says(c, f).value, net)
    ensures Says(c, f).None? && SealedType(f.hdr.typ) ==> C.HandleFrame(c, f, net) == C.Act(c, [])
  {
    hide C.HandleInner, Unseal;
  }

  /** A client hands to its tunnel device exactly the packets of the data frames that say
      something to it. */
  lemma ReceivedIff(c: C.Client, f: Frame, net: C.Net)
    ensures C.HandleFrame(c, f, net).c.received
            == if Says(c, f).Some? && Says(c, f).value.InData? then c.received + [Says(c, f).value.src] else c.received
  {
    SealedIs(c, f, net);
    hide Unseal, C.HandleServerHello, Says;
    if Says(c, f).Some? {
      InnerReceived(Counting(c, f), Says(c, f).value, net);
      hide C.HandleInner, C.HandleFrame;
    } else if !SealedType(f.hdr.typ) {
      OtherReceived(c, f, net);
    }
  }

  lemma InnerReceived(c: C.Client, inner: Inner, net: C.Net)
    ensures C.HandleInner(c, inner, net).c.received == if inner.InData? then c.received + [inner.src] else c.received
  {
    hide SealedType;
  }

  lemma OtherReceived(c: C.Client, f: Frame, net: C.Net)
    requires !SealedType(f.hdr.typ)
    ensures C.HandleFrame(c, f, net).c.received == c.received
  {
    hide SealedType;
  }

  /** It is let in, refused or sent off exactly by the frame that says so, and answers a
      heartbeat. */
  lemma VerdictIs(c: C.Client, f: Frame, net: C.Net)
    requires Says(c, f).Some?
    ensures var a, said := C.HandleFrame(c, f, net), Says(c, f).value;
            && (a.c.authenticated <==> c.authenticated || said.InIdentityOk?)
            && (said.InIdentityOk? ==> a.c.assignedIp == said.vip && a.c.assignedPrefix == said.prefix)
            && (!said.InIdentityOk? ==> a.c.assignedIp == c.assignedIp && a.c.assignedPrefix == c.assignedPrefix)
            && (a.c.authFailed <==> c.authFailed || said.InIdentityDeny?)
            && (said.InIdentityDeny? ==> a.c.denyReason == said.reason)
            && (said.InDisconnect? ==> a.c.needReconnect)
            && (said.InHeart? && net.Handed? && c.keyC2S.Some? && c.seqNo < SEQ_REKEY_LIMIT ==>
                  a.sent == [SealedBy(c, MHeartResponse, InHeartResponse)])
            && (!said.InHeart? ==> a.sent == [])
  {
    SealedIs(c, f, net);
    var d := Counting(c, f);
    assert c.encReady;
    hide Unseal, C.HandleFrame, Says;
    if Says(c, f).value.InHeart? {
      HeartSame(d, net);
      if net.Handed? && c.keyC2S.Some? && c.seqNo < SEQ_REKEY_LIMIT {
        SealedGoesOut(d, MHeartResponse, InHeartResponse, Junk);
      }
    }
    hide C.Send;
  }

  lemma HeartSame(c: C.Client, net: C.Net)
    ensures var d := C.Send(c, MHeartResponse, InHeartResponse, Junk, net).c;
            d == c.(seqNo := d.seqNo, needReconnect := d.needReconnect)
  {
    hide SealedType;
  }

  // ---- online ------------------------------------------------------------------------------

  /** Online, a packet goes out as a data frame, and a heartbeat when due. */
  lemma Transmits(c: C.Client, inner: Inner)
    requires c.phase.Online? && !c.needReconnect && c.encReady && c.keyC2S.Some? && c.seqNo < SEQ_REKEY_LIMIT
    ensures C.Transmit(c, inner, C.Handed)
            == C.Act(Next(c), [if inner.InData? then SealedBy(c, MData, inner) else SealedBy(c, MHeart, InHeart)])
  {
    SealedGoesOut(c, MData, inner, Junk);
    SealedGoesOut(c, MHeart, InHeart, Junk);
    hide C.Send;
  }

  /** An orderly stop says goodbye, sealed. */
  lemma SaysGoodbye(c: C.Client)
    requires c.phase.Online? && c.handshaked && !c.needReconnect && c.encReady && c.keyC2S.Some? && c.seqNo < SEQ_REKEY_LIMIT
    ensures C.Leave(c, C.Handed) == C.Act(Next(c).(phase := C.Stopped), [SealedBy(c, MDisconnect, InDisconnect)])
  {
    SealedGoesOut(c, MDisconnect, InDisconnect, Junk);
    hide C.Send;
  }
}
