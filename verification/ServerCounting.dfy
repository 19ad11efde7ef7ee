/** The numbers of a session's frames and its replay window over whole runs of the
    server, whatever the other sessions do in between. */
module ServerCounting {
  import opened Text
  import opened Replay
  import opened Protocol
  import opened VipPool
  import opened RateLimiters
  import opened ServerSpec
  import opened ServerInv
  import opened ServerSteps
  import opened ServerMoves
  import opened ServerRuns

  // ---- one step -------------------------------------------------------------------------

  predicate SameCount(s: Session, t: Session)
  {
    t.seqNo == s.seqNo && t.replay == s.replay
  }

  /** No frame was sent and no session was added. */
  ghost predicate Still(st: Server, u: Server)
  {
    && u.out == st.out && u.hsRl == st.hsRl && u.sessions.Keys <= st.sessions.Keys
    && forall l :: l in u.sessions ==> SameCount(st.sessions[l], u.sessions[l])
  }

  /** At most one frame was numbered, on this session. */
  ghost predicate Counted(st: Server, u: Server, k: PeerKey)
  {
    && u.hsRl == st.hsRl && u.sessions.Keys <= st.sessions.Keys
    && (forall l :: l in u.sessions && l != k ==> SameCount(st.sessions[l], u.sessions[l]))
    && (u.out == st.out || (k in st.sessions && NumberedOut(st, u, k)))
    && (k in u.sessions ==> Advanced(st, u, k))
  }

  /** One more frame, to this session, with its number. */
  predicate NumberedOut(st: Server, u: Server, k: PeerKey)
    requires k in st.sessions
  {
    && |u.out| == |st.out| + 1 && u.out[..|st.out|] == st.out && u.out[|st.out|].to == k
    && u.out[|st.out|].frame.hdr.seqNo == st.sessions[k].seqNo < SEQ_REKEY_LIMIT
  }

  predicate Advanced(st: Server, u: Server, k: PeerKey)
    requires k in st.sessions && k in u.sessions
  {
    && u.sessions[k].replay == st.sessions[k].replay
    && ((u.out == st.out && u.sessions[k].seqNo == st.sessions[k].seqNo)
        || (u.sessions[k].seqNo == (st.sessions[k].seqNo + 1) % SEQ_WORD && (k.tcp || st.sessions[k].seqNo < SEQ_REKEY_LIMIT)))
  }

  lemma StillIsCounted(st: Server, u: Server, k: PeerKey)
    requires Still(st, u)
    ensures Counted(st, u, k)
  {
  }

  lemma StillSelf(st: Server)
    ensures Still(st, st)
  {
  }

  lemma StillThrough(st: Server, u: Server, v: Server)
    requires Still(st, u) && Still(u, v)
    ensures Still(st, v)
  {
  }

  lemma StillThen(st: Server, u: Server, v: Server, k: PeerKey)
    requires Still(st, u) && Counted(u, v, k)
    ensures Counted(st, v, k)
  {
    assert k in v.sessions ==> k in u.sessions && SameCount(st.sessions[k], u.sessions[k]);
    assert k in u.sessions ==> SameCount(st.sessions[k], u.sessions[k]);
  }

  lemma ThenStill(st: Server, u: Server, v: Server, k: PeerKey)
    requires Counted(st, u, k) && Still(u, v)
    ensures Counted(st, v, k)
  {
  }

  lemma PutStill(st: Server, k: PeerKey, s: Session)
    requires k in st.sessions && SameCount(st.sessions[k], s)
    ensures Still(st, Put(st, k, s))
  {
  }

  lemma ReleaseStill(st: Server, k: PeerKey)
    ensures Still(st, Release(st, k))
  {
    ReleaseFields(st, k);
    hide Release;
  }

  lemma SendCounts(st: Server, k: PeerKey, typ: MsgType, inner: Inner, clear: Clear, sendOk: bool)
    requires k in st.sessions
    ensures Counted(st, Send(st, k, typ, inner, clear, sendOk).st, k)
  {
    hide Send, Release, Numbered, SentFrame, Counted;
    var s := st.sessions[k];
    SendForms(st, k, typ, inner, clear, sendOk);
    NumberedIs(s);
    ReleaseFields(Put(st, k, Numbered(s)), k);
    if !k.tcp && s.seqNo >= SEQ_REKEY_LIMIT {
      UdpEnds(st, k, typ, inner, clear, sendOk);
    }
    var r := Send(st, k, typ, inner, clear, sendOk);
    if r.ok {
      NumberOnFrame(s, k, typ, inner, clear);
      PutCounts(st, k, Numbered(s), [Sent(k, SentFrame(s, k, typ, inner, clear))]);
    } else if k in r.st.sessions {
      PutCounts(st, k, r.st.sessions[k], []);
      assert st.out + [] == st.out;
    } else {
      GoneCounts(st, r.st, k);
    }
  }

  lemma PutCounts(st: Server, k: PeerKey, t: Session, more: seq<Sent>)
    requires k in st.sessions && t.replay == st.sessions[k].replay && t.seqNo == (st.sessions[k].seqNo + 1) % SEQ_WORD
    requires k.tcp || st.sessions[k].seqNo < SEQ_REKEY_LIMIT
    requires more == [] || (|more| == 1 && more[0].to == k && more[0].frame.hdr.seqNo == st.sessions[k].seqNo < SEQ_REKEY_LIMIT)
    ensures Counted(st, Put(st, k, t).(out := st.out + more), k)
  {
  }

  lemma GoneCounts(st: Server, u: Server, k: PeerKey)
    requires k in st.sessions && k !in u.sessions && u.out == st.out && u.hsRl == st.hsRl
    requires exists t :: u.sessions == Put(st, k, t).sessions - {k}
    ensures Counted(st, u, k)
  {
  }

  lemma NumberedIs(s: Session)
    ensures Numbered(s).seqNo == (s.seqNo + 1) % SEQ_WORD && Numbered(s).replay == s.replay
  {
  }

  lemma UdpEnds(st: Server, k: PeerKey, typ: MsgType, inner: Inner, clear: Clear, sendOk: bool)
    requires k in st.sessions && !k.tcp && st.sessions[k].seqNo >= SEQ_REKEY_LIMIT
    ensures k !in Send(st, k, typ, inner, clear, sendOk).st.sessions
  {
    ReleaseFields(Put(st, k, Numbered(st.sessions[k])), k);
    hide Release;
  }

  lemma NumberOnFrame(s: Session, k: PeerKey, typ: MsgType, inner: Inner, clear: Clear)
    requires ServerSeals(typ) ==> s.keyS2C.Some?
    ensures SentFrame(s, k, typ, inner, clear).hdr.seqNo == s.seqNo
  {
  }

  // ---- the handlers -----------------------------------------------------------------------

  lemma DenyCounts(st: Server, k: PeerKey, reason: nat, sendOk: bool)
    requires k in st.sessions
    ensures Counted(st, Deny(st, k, reason, sendOk), k)
  {
    hide Send, Counted, Still;
    var sent := SendSealed(st, k, MIdentityDeny, InIdentityDeny(reason), sendOk);
    SendCounts(st, k, MIdentityDeny, InIdentityDeny(reason), Junk, sendOk);
    if k in sent.sessions {
      PutStill(sent, k, sent.sessions[k].(authenticated := false, handshaked := false));
      ThenStill(st, sent, Deny(st, k, reason, sendOk), k);
    }
  }

  lemma RegistryStill(st: Server, m: IdentityMsg, env: Env)
    requires m.text.IdentityText?
    ensures Still(st, ConsultRegistry(st, m, env).st) && ConsultRegistry(st, m, env).st.sessions == st.sessions
  {
  }

  lemma AdmittingCounts(st: Server, k: PeerKey, env: Env)
    requires k in st.sessions
    ensures Counted(st, Admitting(st, k, env), k)
  {
    var gate := OpenGate(st, k);
    GateStill(st, k);
    hide Send, OpenGate, Counted, Still;
    SendCounts(gate, k, MIdentityOk, InIdentityOk(st.sessions[k].vip, st.cfg.prefix), Junk, env.sendOk);
    StillThen(st, gate, Admitting(st, k, env), k);
  }

  lemma GateStill(st: Server, k: PeerKey)
    requires k in st.sessions
    ensures Still(st, OpenGate(st, k)) && k in OpenGate(st, k).sessions
  {
  }

  lemma AloneStill(st: Server, k: PeerKey, id: string, cliPub: SigKey)
    requires k in st.sessions
    ensures var named := Put(st, k, st.sessions[k].(clientId := id, cliPub := Some(cliPub)));
            var alone := ReleaseAll(named, Victims(named, k));
            Still(st, alone) && k in alone.sessions
  {
    hide Addresses;
  }

  lemma AssignStill(st: Server, u: Server, k: PeerKey, ip: nat)
    requires k in st.sessions && u == st.(pool := u.pool, lastVip := u.lastVip)
    ensures Still(st, u) && k in u.sessions && Still(st, Assign(u, k, ip)) && k in Assign(u, k, ip).sessions
  {
  }

  lemma LogInCounts(st: Server, k: PeerKey, id: string, cliPub: SigKey, env: Env)
    requires k in st.sessions
    ensures Counted(st, LogIn(st, k, id, cliPub, env), k)
  {
    var named := Put(st, k, st.sessions[k].(clientId := id, cliPub := Some(cliPub)));
    var alone := ReleaseAll(named, Victims(named, k));
    AloneStill(st, k, id, cliPub);
    AllocateGives(alone, id, env.draws);
    var g := AllocateVip(alone, id, env.draws);
    AssignStill(alone, g.st, k, g.ip);
    hide Send, AllocateVip, Counted, Still, ReleaseAll, Deny, Admitting, Victims, Assign;
    if alone.sessions[k].ipAssigned {
      AdmittingCounts(alone, k, env);
    } else if g.ip == 0 {
      DenyCounts(g.st, k, 0, env.sendOk);
      StillThen(alone, g.st, LogIn(st, k, id, cliPub, env), k);
    } else {
      AdmittingCounts(Assign(g.st, k, g.ip), k, env);
      StillThen(alone, Assign(g.st, k, g.ip), LogIn(st, k, id, cliPub, env), k);
    }
    StillThen(st, alone, LogIn(st, k, id, cliPub, env), k);
  }

  lemma IdentityCounts(st: Server, k: PeerKey, msg: Option<IdentityMsg>, env: Env)
    requires k in st.sessions
    ensures Counted(st, HandleIdentity(st, k, msg, env), k)
  {
    var s := st.sessions[k];
    hide Send, Deny, LogIn, IdentityHolds, Counted, Still, ConsultRegistry;
    if s.authenticated {
      SendCounts(st, k, MIdentityOk, InIdentityOk(s.vip, st.cfg.prefix), Junk, env.sendOk);
    } else if msg.None? || !IdentityHolds(s, msg.value) {
      DenyCounts(st, k, 0, env.sendOk);
    } else {
      HoldsIsIdentity(s, msg.value);
      RegistryStill(st, msg.value, env);
      var c := ConsultRegistry(st, msg.value, env);
      if c.Rejected? {
        DenyCounts(c.st, k, c.reason, env.sendOk);
      } else if env.svcRefuses {
        DenyCounts(c.st, k, 2, env.sendOk);
      } else {
        LogInCounts(c.st, k, msg.value.text.clientId, msg.value.text.cliPub, env);
      }
      StillThen(st, c.st, HandleIdentity(st, k, msg, env), k);
    }
  }

  lemma InnerCounts(st: Server, k: PeerKey, inner: Inner, env: Env)
    requires k in st.sessions
    ensures Counted(st, HandleInner(st, k, inner, env), k)
  {
    hide Send, HandleIdentity, HandleData, Release, Counted, Still;
    StillSelf(st);
    StillIsCounted(st, st, k);
    match inner
    case InIdentity(msg) => IdentityCounts(st, k, msg, env);
    case InHeart => SendCounts(st, k, MHeartResponse, InHeartResponse, Junk, env.sendOk);
    case InData(src) => DataCounts(st, k, src, env);
    case InDisconnect =>
      ReleaseStill(st, k);
      PutStill(st, k, st.sessions[k].(tcpDrop := true));
      StillIsCounted(st, HandleInner(st, k, inner, env), k);
    case _ =>
  }

  lemma DataCounts(st: Server, k: PeerKey, src: Option<nat>, env: Env)
    requires k in st.sessions
    ensures Counted(st, HandleData(st, k, src, env), k)
  {
    ReleaseStill(st, k);
    StillIsCounted(st, Release(st, k), k);
    hide Release;
  }

  /** The state with one token of the source's bucket asked for. */
  function Charged(st: Server, ip: nat, now: int): Server
  {
    st.(hsRl := Allow(st.hsRl, ip, now).table)
  }

  lemma HelloCounts(st: Server, k: PeerKey, p: Clear, env: Env)
    requires k in st.sessions
    ensures Counted(st, HandleAuthHello(st, k, p, env), k) || Counted(Charged(st, k.ip, env.now), HandleAuthHello(st, k, p, env), k)
  {
    hide SendServerHello, Allow, Restarted, Counted, Still;
    var s := st.sessions[k];
    StillSelf(st);
    StillIsCounted(st, st, k);
    if p.Hello? && st.cfg.signKey.Some? {
      var rl := Allow(st.hsRl, k.ip, env.now);
      var restarted := Restarted(s, p.nonceC, env.nonceS);
      var charged := Charged(st, k.ip, env.now);
      RestartShape(s, p.nonceC, env.nonceS);
      ChargedStill(charged, k, p.nonceC, env.nonceS, env.ephemeral);
      StillIsCounted(charged, charged, k);
      StillIsCounted(charged, Put(charged, k, restarted), k);
      if s.nonceC.Some? && s.nonceS.Some? && s.dhSrv.Some? {
        SendHelloCounts(st, k, st.cfg.signKey.value, env);
      }
      if env.ephemeral.Some? {
        var e := env.ephemeral.value;
        var keyed := Put(charged, k, restarted.(dhPriv := Some(e), dhSrv := Some(Pub(e)))).(issued := st.issued + {e});
        SendHelloCounts(keyed, k, st.cfg.signKey.value, env);
        StillThen(charged, keyed, SendServerHello(keyed, k, st.cfg.signKey.value, env), k);
      }
    }
  }

  lemma ChargedStill(st: Server, k: PeerKey, nonceC: Nonce, nonceS: Nonce, e: Option<Priv>)
    requires k in st.sessions
    ensures Still(st, st) && Still(st, Put(st, k, Restarted(st.sessions[k], nonceC, nonceS)))
    ensures e.Some? ==>
              Still(st, Put(st, k, Restarted(st.sessions[k], nonceC, nonceS).(dhPriv := e, dhSrv := Some(Pub(e.value)))).(issued := st.issued + {e.value}))
  {
  }

  lemma SendHelloCounts(st: Server, k: PeerKey, signKey: SigKey, env: Env)
    requires k in st.sessions
    requires var s := st.sessions[k]; s.nonceC.Some? && s.nonceS.Some? && s.dhSrv.Some?
    ensures Counted(st, SendServerHello(st, k, signKey, env), k)
  {
    var s := st.sessions[k];
    hide Send, HelloReply, SendServerHello, Counted, Still, WithReply;
    if s.hello.Some? || env.signOk {
      var cached := WithReply(s, signKey);
      SendsCached(st, k, signKey, env);
      ReplyCount(s, signKey);
      PutStill(st, k, cached);
      SendCounts(Put(st, k, cached), k, MServerHello, InOther, cached.hello.value, env.sendOk);
      StillThen(st, Put(st, k, cached), SendServerHello(st, k, signKey, env), k);
    } else {
      StaysUnsigned(st, k, signKey, env);
      StillSelf(st);
      StillIsCounted(st, st, k);
    }
  }

  lemma ReplyCount(s: Session, signKey: SigKey)
    requires s.nonceC.Some? && s.nonceS.Some? && s.dhSrv.Some?
    ensures SameCount(s, WithReply(s, signKey))
  {
  }

  lemma StaysUnsigned(st: Server, k: PeerKey, signKey: SigKey, env: Env)
    requires k in st.sessions
    requires var s := st.sessions[k]; s.nonceC.Some? && s.nonceS.Some? && s.dhSrv.Some?
    requires st.sessions[k].hello.None? && !env.signOk
    ensures SendServerHello(st, k, signKey, env) == st
  {
    hide Send;
  }

  lemma ClientHelloStill(st: Server, k: PeerKey, p: Clear, env: Env)
    requires k in st.sessions
    ensures Still(st, HandleClientHello(st, k, p, env))
  {
  }

  /** A frame that reaches the session's replay window: it opens under its key. */
  predicate Reaches(st: Server, k: PeerKey, f: Frame)
  {
    && k in st.sessions && f.hdr.version == (if k.tcp then V_TCP else V_UDP) && SealedType(f.hdr.typ)
    && st.sessions[k].encReady && Unseal(st.sessions[k].keyC2S, f).Some?
  }

  /** The state with that frame's number offered to the window. */
  function Offered(st: Server, k: PeerKey, f: Frame): Server
    requires k in st.sessions
  {
    var s := st.sessions[k];
    if Reaches(st, k, f) then Put(st, k, s.(replay := s.replay.Offer(f.hdr.seqNo))) else st
  }

  lemma FramedCounts(st: Server, k: PeerKey, f: Frame, env: Env)
    requires k in st.sessions
    ensures Counted(Offered(st, k, f), HandleFramed(st, k, f, env), k)
            || Counted(Charged(Offered(st, k, f), k.ip, env.now), HandleFramed(st, k, f, env), k)
  {
    hide HandleAuthHello, HandleClientHello, HandleInner, Counted, Still, Unseal;
    StillSelf(st);
    StillIsCounted(st, st, k);
    if f.hdr.version == (if k.tcp then V_TCP else V_UDP) {
      if SealedType(f.hdr.typ) {
        SealedCounts(st, k, f, env);
      } else if f.payload.Open? {
        HelloCounts(st, k, f.payload.clear, env);
        ClientHelloStill(st, k, f.payload.clear, env);
        StillIsCounted(st, HandleClientHello(st, k, f.payload.clear, env), k);
      }
    }
  }

  lemma SealedCounts(st: Server, k: PeerKey, f: Frame, env: Env)
    requires k in st.sessions && f.hdr.version == (if k.tcp then V_TCP else V_UDP) && SealedType(f.hdr.typ)
    ensures Counted(Offered(st, k, f), HandleSealed(st, k, f, env), k)
  {
    var s := st.sessions[k];
    hide HandleInner, Counted, Still, Unseal;
    if Reaches(st, k, f) {
      var v := Offered(st, k, f);
      if s.replay.Accepts(f.hdr.seqNo) {
        InnerCounts(v, k, Unseal(s.keyC2S, f).value, env);
      } else {
        PutSame(st, k);
        StillSelf(st);
        StillIsCounted(st, st, k);
      }
    } else {
      StillSelf(st);
      StillIsCounted(st, st, k);
    }
  }

  lemma PutSame(st: Server, k: PeerKey)
    requires k in st.sessions
    ensures Put(st, k, st.sessions[k]) == st
  {
    assert st.sessions[k := st.sessions[k]] == st.sessions;
  }

  // ---- one event, seen from one session -------------------------------------------------------

  /** The frames handed over to a session's peer. */
  function FramesTo(out: seq<Sent>, k: PeerKey): seq<Frame>
  {
    if out == [] then []
    else
      var front, last := FramesTo(out[..|out| - 1], k), out[|out| - 1];
      if last.to == k then front + [last.frame] else front
  }

  predicate OneMore(before: seq<Frame>, after: seq<Frame>, n: nat)
  {
    |after| == |before| + 1 && after[..|before|] == before && after[|before|].hdr.seqNo == n < SEQ_REKEY_LIMIT
  }

  /** The session's number stood still, or went up by one with at most that one frame. */
  predicate Grown(st: Server, u: Server, k: PeerKey)
    requires k in st.sessions && k in u.sessions
  {
    var s, t := st.sessions[k], u.sessions[k];
    var before, after := FramesTo(st.out, k), FramesTo(u.out, k);
    && t.replay == s.replay
    && ((t.seqNo == s.seqNo && after == before)
        || (t.seqNo == (s.seqNo + 1) % SEQ_WORD && (k.tcp || s.seqNo < SEQ_REKEY_LIMIT)
            && (after == before || OneMore(before, after, s.seqNo))))
  }

  lemma CountedGrown(st: Server, u: Server, k: PeerKey, l: PeerKey)
    requires Counted(st, u, k) && l in u.sessions
    ensures l in st.sessions && Grown(st, u, l)
  {
    if u.out != st.out {
      assert u.out[..|u.out| - 1] == st.out;
    }
  }

  /** What an event is received in: a frame that opens is first offered to the window. */
  function Heard(st: Server, e: Event): Server
  {
    if e.Arrive? && e.key in st.sessions then Offered(st, e.key, e.frame) else st
  }

  /** The session an event numbers a frame for, if any. */
  function Numbering(st: Server, e: Event): PeerKey
  {
    match e
    case Downlink(dst, _, _) => Route(st, dst).GetOr(PeerKey(0, 0, false))
    case _ => e.key
  }

  /** The same after the source of a received frame was charged for a handshake. */
  function HeardFor(st: Server, e: Event): Server
  {
    if e.Arrive? then Charged(Heard(st, e), e.key.ip, e.env.now) else Heard(st, e)
  }

  lemma EventCounts(st: Server, e: Event)
    requires !e.Admit?
    ensures Counted(Heard(st, e), Step(st, e), Numbering(st, e)) || Counted(HeardFor(st, e), Step(st, e), Numbering(st, e))
  {
    var k := Numbering(st, e);
    StillSelf(st);
    StillIsCounted(st, st, k);
    hide Send, Release, HandleFramed, Route, Counted, Still, Offered, Charged;
    match e
    case Arrive(_, f, env) => if k in st.sessions { FramedCounts(st, k, f, env); }
    case End(_) =>
      ReleaseStill(st, k);
      StillIsCounted(st, Release(st, k), k);
    case Heartbeat(_, sendOk) => if k in st.sessions { SendCounts(st, k, MHeart, InHeart, Junk, sendOk); }
    case Downlink(dst, src, sendOk) =>
      RouteIsSession(st, dst);
      if Route(st, dst).Some? { SendCounts(st, k, MData, InData(Some(src)), Junk, sendOk); }
    case Bye(_, sendOk) => if k in st.sessions { SendCounts(st, k, MDisconnect, InDisconnect, Junk, sendOk); }
  }

  lemma RoomIs(st: Server, ip: nat, victim: Option<PeerKey>)
    ensures var u := Room(st, ip, victim);
            && u.out == st.out && u.hsRl == st.hsRl && u.sessions.Keys <= st.sessions.Keys
            && forall l :: l in u.sessions ==> u.sessions[l] == st.sessions[l]
  {
    if victim.Some? {
      ReleaseFields(st, victim.value);
    }
    hide Release, FromIp;
  }

  /** Letting a source in touches no session that stays. */
  lemma AdmitCounts(st: Server, k: PeerKey, now: int, victim: Option<PeerKey>)
    ensures var u := GetOrCreate(st, k, now, victim);
            && u.out == st.out && u.hsRl == st.hsRl
            && (forall l :: l in u.sessions && l in st.sessions ==> u.sessions[l] == st.sessions[l])
            && (forall l :: l in u.sessions && l !in st.sessions ==> l == k && u.sessions[l] == NewSession(now))
  {
    hide Room, NewSession, Pending, Admits;
    RoomIs(st, k.ip, victim);
  }

  lemma StepGrows(st: Server, e: Event, l: PeerKey)
    requires l in st.sessions && l in Step(st, e).sessions
    ensures l in Heard(st, e).sessions && Grown(Heard(st, e), Step(st, e), l)
  {
    if e.Admit? {
      hide GetOrCreate, NewSession;
      AdmitCounts(st, e.key, e.env.now, e.env.victim);
    } else {
      hide Step, Counted, Grown, Heard, HeardFor, Numbering;
      EventCounts(st, e);
      if Counted(Heard(st, e), Step(st, e), Numbering(st, e)) {
        CountedGrown(Heard(st, e), Step(st, e), Numbering(st, e), l);
      } else {
        CountedGrown(HeardFor(st, e), Step(st, e), Numbering(st, e), l);
        ChargedGrows(st, e, Step(st, e), l);
      }
    }
  }

  lemma ChargedGrows(st: Server, e: Event, u: Server, l: PeerKey)
    requires l in HeardFor(st, e).sessions && l in u.sessions && Grown(HeardFor(st, e), u, l)
    ensures l in Heard(st, e).sessions && Grown(Heard(st, e), u, l)
  {
    hide Heard, Allow, FramesTo, OneMore;
  }

  /** A session that an event adds starts with number 0 and a window that has accepted
      nothing. */
  lemma AddedIsFresh(st: Server, e: Event, l: PeerKey)
    requires l !in st.sessions && l in Step(st, e).sessions
    ensures e.Admit? && e.key == l
    ensures Step(st, e).sessions[l].seqNo == 0 && Step(st, e).sessions[l].replay == FRESH
  {
    if e.Admit? {
      hide GetOrCreate;
      AdmitCounts(st, e.key, e.env.now, e.env.victim);
    } else {
      HeardKeys(st, e);
      hide Step, Heard, HeardFor, Numbering;
      EventCounts(st, e);
    }
  }

  lemma HeardKeys(st: Server, e: Event)
    ensures Heard(st, e).sessions.Keys == st.sessions.Keys == HeardFor(st, e).sessions.Keys && Heard(st, e).out == st.out
    ensures Heard(st, e).hsRl == st.hsRl
    ensures forall l :: l in st.sessions ==> Heard(st, e).sessions[l].seqNo == st.sessions[l].seqNo
  {
    hide Unseal;
  }

  // ---- the life of a session ---------------------------------------------------------------------

  function NumbersOf(fs: seq<Frame>): (xs: seq<nat>)
    ensures |xs| == |fs|
  {
    seq(|fs|, i requires 0 <= i < |fs| => fs[i].hdr.seqNo)
  }

  ghost predicate Rising(xs: seq<nat>)
  {
    forall i, j :: 0 <= i < j < |xs| ==> xs[i] < xs[j]
  }

  ghost predicate Within(xs: seq<nat>, lo: nat, hi: nat)
  {
    forall i :: 0 <= i < |xs| ==> lo <= xs[i] < hi
  }

  /** The frames handed over to the session's peer during these events. */
  function SentDuring(st: Server, k: PeerKey, es: seq<Event>): seq<Frame>
    requires |FramesTo(st.out, k)| <= |FramesTo(Run(st, es).out, k)|
  {
    FramesTo(Run(st, es).out, k)[|FramesTo(st.out, k)|..]
  }

  /** A number that cannot wrap: on a datagram session, which ends at the re-key
      limit, or with fewer than 2^32 events to come. */
  predicate NoWrap(st: Server, k: PeerKey, n: nat)
    requires k in st.sessions
  {
    if k.tcp then st.sessions[k].seqNo + n < SEQ_WORD else st.sessions[k].seqNo <= SEQ_REKEY_LIMIT
  }

  ghost predicate CountsUp(st: Server, k: PeerKey, es: seq<Event>)
    requires k in st.sessions && k in Run(st, es).sessions
  {
    var u := Run(st, es);
    && FramesTo(st.out, k) <= FramesTo(u.out, k)
    && Rising(NumbersOf(SentDuring(st, k, es)))
    && Within(NumbersOf(SentDuring(st, k, es)), st.sessions[k].seqNo, u.sessions[k].seqNo)
    && Within(NumbersOf(SentDuring(st, k, es)), 0, SEQ_REKEY_LIMIT)
    && st.sessions[k].seqNo <= u.sessions[k].seqNo <= st.sessions[k].seqNo + |es|
    && (!k.tcp ==> u.sessions[k].seqNo <= SEQ_REKEY_LIMIT)
  }

  lemma StaysFront(st: Server, k: PeerKey, es: seq<Event>)
    requires es != [] && Stays(st, es, k)
    ensures Stays(st, es[..|es| - 1], k) && k in Run(st, es[..|es| - 1]).sessions && k in Run(st, es).sessions
    ensures Run(st, es) == Step(Run(st, es[..|es| - 1]), es[|es| - 1])
  {
    hide Step;
  }

  /** The frames one session's peer gets carry rising numbers below the re-key limit,
      whatever the other sessions do in between. */
  lemma {:induction false} NumbersRise(st: Server, k: PeerKey, es: seq<Event>)
    requires k in st.sessions && Stays(st, es, k) && NoWrap(st, k, |es|)
    ensures k in Run(st, es).sessions && CountsUp(st, k, es)
  {
    if es == [] {
      assert FramesTo(st.out, k)[|FramesTo(st.out, k)|..] == [];
    } else {
      var front, e := es[..|es| - 1], es[|es| - 1];
      StaysFront(st, k, es);
      hide Step, Stays, Run, Heard, Grown;
      NumbersRise(st, k, front);
      var b := Run(st, front);
      StepGrows(b, e, k);
      HeardKeys(b, e);
      CountOne(st, k, es);
    }
  }

  lemma CountOne(st: Server, k: PeerKey, es: seq<Event>)
    requires es != [] && k in st.sessions && NoWrap(st, k, |es|)
    requires var front := es[..|es| - 1];
             && k in Run(st, front).sessions && CountsUp(st, k, front)
             && k in Run(st, es).sessions && k in Heard(Run(st, front), es[|es| - 1]).sessions
             && Heard(Run(st, front), es[|es| - 1]).out == Run(st, front).out
             && Heard(Run(st, front), es[|es| - 1]).sessions[k].seqNo == Run(st, front).sessions[k].seqNo
             && Grown(Heard(Run(st, front), es[|es| - 1]), Run(st, es), k)
    ensures CountsUp(st, k, es)
  {
    hide Run, Heard, FramesTo;
    var b, u := Run(st, es[..|es| - 1]), Run(st, es);
    var first, before, after := FramesTo(st.out, k), FramesTo(b.out, k), FramesTo(u.out, k);
    if after != before {
      assert after == before + [after[|before|]];
      assert after[|first|..] == before[|first|..] + [after[|before|]];
      MoreNumbers(before[|first|..], after[|before|]);
    }
  }

  lemma MoreNumbers(fs: seq<Frame>, f: Frame)
    ensures NumbersOf(fs + [f]) == NumbersOf(fs) + [f.hdr.seqNo]
  {
  }

  // ---- the window ------------------------------------------------------------------------------

  /** The frames that reached the session's window during these events, in order. */
  function Arrivals(st: Server, k: PeerKey, es: seq<Event>): seq<Frame>
  {
    if es == [] then []
    else
      var front, e := es[..|es| - 1], es[|es| - 1];
      Arrivals(st, k, front) + (if e.Arrive? && e.key == k && Reaches(Run(st, front), k, e.frame) then [e.frame] else [])
  }

  lemma HeardWindow(st: Server, e: Event, k: PeerKey)
    requires k in st.sessions && k in Heard(st, e).sessions
    ensures var w := st.sessions[k].replay;
            Heard(st, e).sessions[k].replay ==
              if e.Arrive? && e.key == k && Reaches(st, k, e.frame) then w.Offer(e.frame.hdr.seqNo) else w
  {
    hide Unseal;
  }

  /** The window is that of all numbers offered to it since the session began, through
      any restart of its handshake. */
  lemma {:induction false} RunWindow(st: Server, k: PeerKey, es: seq<Event>)
    requires k in st.sessions && Stays(st, es, k) && st.sessions[k].replay == FRESH
    ensures k in Run(st, es).sessions && Run(st, es).sessions[k].replay == After(NumbersOf(Arrivals(st, k, es)))
  {
    if es != [] {
      var front, e := es[..|es| - 1], es[|es| - 1];
      StaysFront(st, k, es);
      hide Step, Stays, Run, Heard, Reaches, CountsUp;
      RunWindow(st, k, front);
      var b := Run(st, front);
      StepGrows(b, e, k);
      HeardWindow(b, e, k);
      if e.Arrive? && e.key == k && Reaches(b, k, e.frame) {
        MoreNumbers(Arrivals(st, k, front), e.frame);
        OneOffer(NumbersOf(Arrivals(st, k, front)), e.frame.hdr.seqNo);
      } else {
        assert Arrivals(st, k, es) == Arrivals(st, k, front);
      }
    }
  }

  lemma OneOffer(xs: seq<nat>, x: nat)
    ensures After(xs + [x]) == After(xs).Offer(x)
  {
    assert (xs + [x])[..|xs|] == xs;
  }

  // ---- from the first event on -------------------------------------------------------------------

  lemma GrownLow(st: Server, u: Server, k: PeerKey)
    requires k in st.sessions && k in u.sessions && Grown(st, u, k) && !k.tcp && st.sessions[k].seqNo <= SEQ_REKEY_LIMIT
    ensures u.sessions[k].seqNo <= SEQ_REKEY_LIMIT
  {
    hide FramesTo, OneMore;
  }

  /** Datagram sessions never pass the re-key limit. */
  lemma {:induction false} DatagramsStayLow(st: Server, es: seq<Event>, k: PeerKey)
    requires Started(st) && k in Run(st, es).sessions && !k.tcp
    ensures Run(st, es).sessions[k].seqNo <= SEQ_REKEY_LIMIT
  {
    hide Step, Heard, Grown;
    if es != [] {
      var b, e := Run(st, es[..|es| - 1]), es[|es| - 1];
      assert Run(st, es) == Step(b, e);
      hide Run, Started;
      if k in b.sessions {
        DatagramsStayLow(st, es[..|es| - 1], k);
        StepGrows(b, e, k);
        HeardKeys(b, e);
        GrownLow(Heard(b, e), Step(b, e), k);
      } else {
        AddedIsFresh(b, e, k);
      }
    }
  }

  /** From its admission on, in any run: the frames a session's peer gets carry rising
      numbers, and its window is that of the frames that reached it. */
  lemma LifeCounts(st: Server, k: PeerKey, admit: Event, es: seq<Event>)
    requires k !in st.sessions && k in Step(st, admit).sessions
    requires Stays(Step(st, admit), es, k) && (k.tcp ==> |es| < SEQ_WORD)
    ensures var born := Step(st, admit);
            && k in Run(born, es).sessions && CountsUp(born, k, es) && born.sessions[k].seqNo == 0
            && Run(born, es).sessions[k].replay == After(NumbersOf(Arrivals(born, k, es)))
  {
    AddedIsFresh(st, admit, k);
    hide Step, Stays, CountsUp;
    NumbersRise(Step(st, admit), k, es);
    RunWindow(Step(st, admit), k, es);
  }

  // ---- past 2^32 -----------------------------------------------------------------------------------

  /** Heartbeats the connection does not take. */
  function Stalled(k: PeerKey, n: nat): seq<Event>
  {
    if n == 0 then [] else Stalled(k, n - 1) + [Heartbeat(k, false)]
  }

  lemma BeatIsSend(st: Server, k: PeerKey, taken: bool)
    requires k in st.sessions && st.sessions[k].authenticated
    ensures Step(st, Heartbeat(k, taken)) == Send(st, k, MHeart, InHeart, Junk, taken).st
  {
    hide Send;
  }

  lemma BeatTaken(st: Server, k: PeerKey)
    requires k in st.sessions && k.tcp
    requires var s := st.sessions[k]; s.encReady && s.keyS2C.Some? && s.seqNo < SEQ_REKEY_LIMIT
    ensures Send(st, k, MHeart, InHeart, Junk, true).st.out == st.out + [Beat(k, st.sessions[k].keyS2C.value, st.sessions[k].seqNo)]
  {
  }

  lemma StreamStays(st: Server, k: PeerKey, taken: bool)
    requires k in st.sessions && k.tcp
    ensures var u, n := Send(st, k, MHeart, InHeart, Junk, taken).st, Numbered(st.sessions[k]);
            && (u.sessions == st.sessions[k := n] || u.sessions == st.sessions[k := n.(tcpDrop := true)])
            && (!taken ==> u.out == st.out)
  {
    hide Release;
  }

  lemma BeatNumbers(st: Server, k: PeerKey, taken: bool)
    requires k in st.sessions && k.tcp
    ensures var u, s := Send(st, k, MHeart, InHeart, Junk, taken).st, st.sessions[k];
            && k in u.sessions
            && u.sessions[k] == s.(seqNo := (s.seqNo + 1) % SEQ_WORD, tcpDrop := u.sessions[k].tcpDrop)
            && (!taken ==> u.out == st.out)
  {
    hide Send;
    StreamStays(st, k, taken);
  }

  /** A heartbeat on a live stream session, taken or not. */
  lemma BeatStep(st: Server, k: PeerKey, taken: bool)
    requires k in st.sessions && k.tcp && st.sessions[k].authenticated
    ensures var u, s := Step(st, Heartbeat(k, taken)), st.sessions[k];
            && k in u.sessions
            && u.sessions[k] == s.(seqNo := (s.seqNo + 1) % SEQ_WORD, tcpDrop := u.sessions[k].tcpDrop)
            && (!taken ==> u.out == st.out)
            && (taken && s.encReady && s.keyS2C.Some? && s.seqNo < SEQ_REKEY_LIMIT ==> u.out == st.out + [Beat(k, s.keyS2C.value, s.seqNo)])
  {
    hide Step, Send, Beat;
    BeatIsSend(st, k, taken);
    BeatNumbers(st, k, taken);
    var s := st.sessions[k];
    if taken && s.encReady && s.keyS2C.Some? && s.seqNo < SEQ_REKEY_LIMIT {
      BeatTaken(st, k);
    }
  }

  function Beat(k: PeerKey, key: SessionKey, n: nat): Sent
  {
    Sent(k, Frame(Header(V_TCP, MHeart, n), Sealed(key, Header(V_TCP, MHeart, n), InHeart)))
  }

  lemma NextNumber(a: nat)
    ensures (a % SEQ_WORD + 1) % SEQ_WORD == (a + 1) % SEQ_WORD
  {
  }

  lemma StalledMore(st: Server, k: PeerKey, n: nat)
    requires n > 0
    ensures Run(st, Stalled(k, n)) == Step(Run(st, Stalled(k, n - 1)), Heartbeat(k, false))
  {
    hide Step;
    var es := Stalled(k, n);
    assert es[..|es| - 1] == Stalled(k, n - 1) && es[|es| - 1] == Heartbeat(k, false);
  }

  lemma {:induction false} StalledRun(st: Server, k: PeerKey, n: nat)
    requires k in st.sessions && k.tcp && st.sessions[k].authenticated && st.sessions[k].seqNo < SEQ_WORD
    ensures var u, s := Run(st, Stalled(k, n)), st.sessions[k];
            && u.out == st.out && k in u.sessions
            && u.sessions[k] == s.(seqNo := (s.seqNo + n) % SEQ_WORD, tcpDrop := u.sessions[k].tcpDrop)
  {
    hide Step;
    if n > 0 {
      StalledMore(st, k, n);
      hide Run, Stalled;
      StalledRun(st, k, n - 1);
      BeatStep(Run(st, Stalled(k, n - 1)), k, false);
      NextNumber(st.sessions[k].seqNo + n - 1);
    }
  }

  /** The bound is needed: a stream session that is asked to drop but not closed goes on
      numbering, and after 2^32 numbers sends the first of them again under the same key. */
  lemma NumbersRepeat(st: Server, k: PeerKey)
    requires k in st.sessions && k.tcp
    requires var s := st.sessions[k]; s.authenticated && s.encReady && s.keyS2C.Some? && s.seqNo < SEQ_REKEY_LIMIT
    ensures var once := Step(st, Heartbeat(k, true));
            var idle := Run(once, Stalled(k, SEQ_WORD - 1));
            var again := Step(idle, Heartbeat(k, true));
            && |once.out| == |st.out| + 1 && |again.out| == |once.out| + 1
            && again.out[|once.out|] == once.out[|st.out|]
            && once.out[|st.out|].to == k && once.out[|st.out|].frame.payload.Sealed?
  {
    hide Run, Step, Stalled;
    var once := Step(st, Heartbeat(k, true));
    BeatStep(st, k, true);
    StalledRun(once, k, SEQ_WORD - 1);
    BeatStep(Run(once, Stalled(k, SEQ_WORD - 1)), k, true);
  }

  // ---- the handshake limiter -------------------------------------------------------------------------

  /** Frames are received at positive times that never go back, none after now. */
  predicate Clocked(es: seq<Event>, now: int)
  {
    es != [] ==>
      var e := es[|es| - 1];
      if e.Arrive? then 0 < e.env.now <= now && Clocked(es[..|es| - 1], e.env.now) else Clocked(es[..|es| - 1], now)
  }

  lemma StepLimiter(st: Server, e: Event)
    ensures Step(st, e).hsRl == st.hsRl || (e.Arrive? && Step(st, e).hsRl == Allow(st.hsRl, e.key.ip, e.env.now).table)
  {
    if e.Admit? {
      hide GetOrCreate, NewSession, Allow;
      AdmitCounts(st, e.key, e.env.now, e.env.victim);
    } else {
      HeardKeys(st, e);
      hide Step, Heard, Numbering, Allow;
      EventCounts(st, e);
    }
  }

  lemma SoundLater(t: Table, now: int, later: int)
    requires Sound(t, now) && now <= later
    ensures Sound(t, later)
  {
  }

  /** So the limiter's table is sound at every moment of every run. */
  lemma {:induction false} LimiterIsSound(st: Server, es: seq<Event>, now: int)
    requires Started(st) && Clocked(es, now)
    ensures Sound(Run(st, es).hsRl, now)
  {
    hide Step, Allow, Sound;
    if es == [] {
      NoEntries(now);
    } else {
      var front, e := es[..|es| - 1], es[|es| - 1];
      StepLimiter(Run(st, front), e);
      if e.Arrive? {
        LimiterIsSound(st, front, e.env.now);
        AllowByLevel(Run(st, front).hsRl, e.key.ip, e.env.now);
        SoundLater(Run(st, es).hsRl, e.env.now, now);
      } else {
        LimiterIsSound(st, front, now);
      }
    }
  }

  lemma NoEntries(now: int)
    ensures Sound(map[], now)
  {
  }
}
