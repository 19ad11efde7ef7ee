/** Sticky addresses: when each login of a client id is given the address it had. */
module ServerLeases {
  import opened Text
  import opened Replay
  import opened Protocol
  import opened VipPool
  import opened RateLimiters
  import opened ServerSpec
  import opened ServerInv
  import opened ServerSteps
  import opened ServerMoves
  import opened ServerRuns

  ghost predicate Injective(leases: map<string, nat>)
  {
    forall i, j :: i in leases && j in leases && i != j ==> leases[i] != leases[j]
  }

  /** Every login so far was at the address its client id has leased now. */
  ghost predicate Sticky(leases: map<string, nat>, bindings: set<Binding>)
  {
    && Injective(leases)
    && forall b :: b in bindings ==> b.clientId in leases && leases[b.clientId] == b.vip
  }

  /** The sessions a login with this key ends. */
  function Kicked(st: Server, k: PeerKey, cliPub: SigKey): set<PeerKey>
  {
    set v | v in st.sessions && v != k && st.sessions[v].cliPub == Some(cliPub)
  }

  /** The conditions on a login: no other key is logged in under this client id, the
      lease table is not about to overflow, and the address is not left to chance. */
  ghost predicate CalmLogin(st: Server, k: PeerKey, id: string, cliPub: SigKey)
  {
    && (forall l :: l in st.sessions && st.sessions[l].stage.Authed? && st.sessions[l].clientId == id
          ==> st.sessions[l].cliPub == Some(cliPub))
    && |st.lastVip| <= MAX_LEASES
    && !TierOf(ReleaseAll(st, Kicked(st, k, cliPub)), id).ByChance?
  }

  ghost predicate CalmMessage(st: Server, k: PeerKey, msg: Option<IdentityMsg>)
  {
    msg.Some? && msg.value.text.IdentityText? ==> CalmLogin(st, k, msg.value.text.clientId, msg.value.text.cliPub)
  }

  ghost predicate CalmInner(st: Server, k: PeerKey, inner: Inner)
  {
    inner.InIdentity? ==> CalmMessage(st, k, inner.msg)
  }

  /** An event that carries a login carries a calm one. */
  ghost predicate Calm(st: Server, e: Event)
  {
    e.Arrive? && e.key in st.sessions && Unseal(st.sessions[e.key].keyC2S, e.frame).Some? ==>
      CalmInner(st, e.key, Unseal(st.sessions[e.key].keyC2S, e.frame).value)
  }

  ghost predicate RunCalm(st: Server, es: seq<Event>)
  {
    es != [] ==> RunCalm(st, es[..|es| - 1]) && Calm(Run(st, es[..|es| - 1]), es[|es| - 1])
  }

  // ---- the allocation ---------------------------------------------------------------------

  /** An address leased to someone and in use belongs to a live session of theirs. */
  lemma LeaseHolder(st: Server, id: string) returns (l: PeerKey)
    requires Inv(st) && Sticky(st.lastVip, st.bindings) && id in st.lastVip
    requires st.lastVip[id] in st.pool.used
    ensures l in st.sessions && st.sessions[l].stage.Authed? && st.sessions[l].clientId == id
    ensures st.sessions[l].ipAssigned && st.sessions[l].vip == st.lastVip[id] != 0
  {
    l := st.vipToKey[st.lastVip[id]];
    StageOf(st, l);
    var b := BindingOf(l, st.sessions[l], st.cfg.prefix);
    assert b in st.bindings;
    assert st.sessions[l].clientId == b.clientId;
  }

  lemma StillInUse(st: Server, vs: set<PeerKey>, ip: nat)
    ensures ip in ReleaseAll(st, vs).pool.used ==> ip in st.pool.used
    ensures ReleaseAll(st, vs).pool.Host(ip) == st.pool.Host(ip)
  {
  }

  /** With its old sessions kicked, a leased host address is free for its owner. */
  lemma LeaseIsFree(st: Server, k: PeerKey, id: string, cliPub: SigKey)
    requires Inv(st) && Sticky(st.lastVip, st.bindings) && id in st.lastVip
    requires CalmLogin(st, k, id, cliPub) && k in st.sessions && !st.sessions[k].stage.Authed?
    requires st.pool.Host(st.lastVip[id])
    ensures ReleaseAll(st, Kicked(st, k, cliPub)).pool.Free(st.lastVip[id])
  {
    var ip := st.lastVip[id];
    hide Inv, TierOf, Sticky, ReleaseAll;
    StillInUse(st, Kicked(st, k, cliPub), ip);
    if ip in st.pool.used {
      var l := LeaseHolder(st, id);
      KickedAddress(st, k, l, cliPub);
    }
  }

  lemma KickedAddress(st: Server, k: PeerKey, l: PeerKey, cliPub: SigKey)
    requires l in st.sessions && l != k && st.sessions[l].cliPub == Some(cliPub)
    requires st.sessions[l].ipAssigned && st.sessions[l].vip != 0
    ensures st.sessions[l].vip !in ReleaseAll(st, Kicked(st, k, cliPub)).pool.used
  {
    assert st.sessions[l].vip in Addresses(st, Kicked(st, k, cliPub));
  }

  /** What allocation gives when it is not left to chance. */
  lemma LeasedAllocation(st: Server, id: string, draws: seq<nat>)
    requires Injective(st.lastVip) && |st.lastVip| <= MAX_LEASES && !TierOf(st, id).ByChance?
    ensures var g := AllocateVip(st, id, draws);
            && g.st.lastVip == st.lastVip[id := g.ip]
            && (id in st.lastVip && st.pool.Free(st.lastVip[id]) ==> g.ip == st.lastVip[id])
            && (forall i :: i in st.lastVip && i != id ==> st.lastVip[i] != g.ip)
  {
    hide Preferred;
    var g := AllocateVip(st, id, draws);
    if TierOf(st, id).ByLease? {
      assert g.st.lastVip == st.lastVip[id := g.ip];
    }
  }

  /** A calm login is given the leased address when the id was ever given one, and
      otherwise one that nobody has leased. */
  lemma CalmAllocation(st: Server, k: PeerKey, id: string, cliPub: SigKey, draws: seq<nat>)
    requires Inv(st) && Sticky(st.lastVip, st.bindings)
    requires CalmLogin(st, k, id, cliPub) && k in st.sessions && !st.sessions[k].stage.Authed?
    ensures var g := AllocateVip(ReleaseAll(st, Kicked(st, k, cliPub)), id, draws);
            && g.st.lastVip == st.lastVip[id := g.ip]
            && (forall b :: b in st.bindings && b.clientId == id ==> b.vip == g.ip)
            && (forall i :: i in st.lastVip && i != id ==> st.lastVip[i] != g.ip)
  {
    BoundAtLease(st, id);
    if id in st.lastVip && st.pool.Host(st.lastVip[id]) {
      LeaseIsFree(st, k, id, cliPub);
    }
    KickedLeases(st, Kicked(st, k, cliPub));
    hide Inv, ReleaseAll, TierOf, AllocateVip;
    LeasedAllocation(ReleaseAll(st, Kicked(st, k, cliPub)), id, draws);
  }

  lemma StickyAfter(leases: map<string, nat>, bindings: set<Binding>, id: string, ip: nat, b: Binding)
    requires Sticky(leases, bindings)
    requires forall b :: b in bindings && b.clientId == id ==> b.vip == ip
    requires forall i :: i in leases && i != id ==> leases[i] != ip
    requires b.clientId == id && b.vip == ip
    ensures Sticky(leases[id := ip], bindings) && Sticky(leases[id := ip], bindings + {b})
  {
  }

  lemma KickedLeases(st: Server, vs: set<PeerKey>)
    ensures ReleaseAll(st, vs).lastVip == st.lastVip
    ensures forall ip :: ReleaseAll(st, vs).pool.Host(ip) == st.pool.Host(ip)
  {
  }

  /** All logins of an id were at its lease, and at a host address. */
  lemma BoundAtLease(st: Server, id: string)
    requires Inv(st) && Sticky(st.lastVip, st.bindings)
    ensures forall b :: b in st.bindings && b.clientId == id ==> id in st.lastVip && b.vip == st.lastVip[id] && st.pool.Host(b.vip)
  {
    forall b | b in st.bindings && b.clientId == id
      ensures st.pool.Host(b.vip)
    {
      assert BindingSound(st, b);
    }
  }

  // ---- the handlers -----------------------------------------------------------------------

  lemma LogInSticks(st: Server, k: PeerKey, id: string, cliPub: SigKey, env: Env)
    requires Inv(st) && Sticky(st.lastVip, st.bindings)
    requires k in st.sessions && st.sessions[k].stage.KeysReady? && CalmLogin(st, k, id, cliPub)
    ensures var u := LogIn(st, k, id, cliPub, env); Sticky(u.lastVip, u.bindings)
  {
    var n := st.sessions[k].(clientId := id, cliPub := Some(cliPub));
    var named := Put(st, k, n);
    var vs := Victims(named, k);
    var alone := ReleaseAll(named, vs);
    NotYetAssigned(st, k);
    NamedReleases(st, k, n, cliPub, id, env.draws);
    CalmAllocation(st, k, id, cliPub, env.draws);
    var g := AllocateVip(alone, id, env.draws);
    hide Inv, Sticky, CalmLogin, AllocateVip, ReleaseAll, Deny, Admitting, Victims, Kicked;
    assert LogIn(st, k, id, cliPub, env) ==
      if g.ip == 0 then Deny(g.st, k, 0, env.sendOk) else Admitting(Assign(g.st, k, g.ip), k, env);
    if g.ip == 0 {
      DenyLog(g.st, k, 0, env.sendOk);
      StickyAfter(st.lastVip, st.bindings, id, 0, SomeBinding(k, n, id, 0));
    } else {
      var b := AdmittingLog(g.st, k, g.ip, env);
      StickyAfter(st.lastVip, st.bindings, id, g.ip, b);
    }
  }

  function SomeBinding(k: PeerKey, n: Session, id: string, ip: nat): (b: Binding)
    ensures b.clientId == id && b.vip == ip
  {
    BindingOf(k, n.(clientId := id, vip := ip), 0)
  }

  /** Naming the session first does not change what is released and allocated. */
  lemma NamedReleases(st: Server, k: PeerKey, n: Session, cliPub: SigKey, id: string, draws: seq<nat>)
    requires k in st.sessions && n == st.sessions[k].(clientId := n.clientId, cliPub := Some(cliPub))
    ensures var alone := ReleaseAll(Put(st, k, n), Victims(Put(st, k, n), k));
            var g := AllocateVip(alone, id, draws);
            var h := AllocateVip(ReleaseAll(st, Kicked(st, k, cliPub)), id, draws);
            && k in alone.sessions && alone.sessions[k] == n && g.st.sessions == alone.sessions && g.st.bindings == st.bindings
            && g.ip == h.ip && g.st.lastVip == h.st.lastVip
  {
    var named := Put(st, k, n);
    assert Victims(named, k) == Kicked(st, k, cliPub);
    var vs := Kicked(st, k, cliPub);
    assert Addresses(named, vs) == Addresses(st, vs);
    var alone, other := ReleaseAll(named, vs), ReleaseAll(st, vs);
    SameAllocation(alone, other, id, draws);
    AllocateGives(alone, id, draws);
  }

  lemma SameAllocation(st: Server, u: Server, id: string, draws: seq<nat>)
    requires st.pool == u.pool && st.lastVip == u.lastVip
    ensures AllocateVip(st, id, draws).ip == AllocateVip(u, id, draws).ip
    ensures AllocateVip(st, id, draws).st.lastVip == AllocateVip(u, id, draws).st.lastVip
  {
    hide Preferred, Remember;
    assert TierOf(st, id) == TierOf(u, id);
  }

  lemma DenyLog(st: Server, k: PeerKey, reason: nat, sendOk: bool)
    requires k in st.sessions
    ensures Deny(st, k, reason, sendOk).lastVip == st.lastVip && Deny(st, k, reason, sendOk).bindings == st.bindings
  {
    hide Send;
    SendFields(st, k, MIdentityDeny, InIdentityDeny(reason), Junk, sendOk);
  }

  lemma AdmittingLog(st: Server, k: PeerKey, ip: nat, env: Env) returns (b: Binding)
    requires k in st.sessions
    ensures var u := Admitting(Assign(st, k, ip), k, env); u.lastVip == st.lastVip && u.bindings == st.bindings + {b}
    ensures b.clientId == st.sessions[k].clientId && b.vip == ip
  {
    var placed := Assign(st, k, ip);
    var gate := OpenGate(placed, k);
    b := BindingOf(k, gate.sessions[k], placed.cfg.prefix);
    assert gate.lastVip == st.lastVip && gate.bindings == st.bindings + {b};
    hide Send;
    SendFields(gate, k, MIdentityOk, InIdentityOk(placed.sessions[k].vip, placed.cfg.prefix), Junk, env.sendOk);
  }

  lemma IdentitySticks(st: Server, k: PeerKey, msg: Option<IdentityMsg>, env: Env)
    requires Inv(st) && Sticky(st.lastVip, st.bindings)
    requires k in st.sessions && st.sessions[k].encReady && CalmMessage(st, k, msg)
    ensures var u := HandleIdentity(st, k, msg, env); Sticky(u.lastVip, u.bindings)
  {
    var s := st.sessions[k];
    KeysOrAuthed(st, k);
    hide Inv, Send, Deny, LogIn, IdentityHolds, Sticky, CalmLogin;
    if s.authenticated {
      SendFields(st, k, MIdentityOk, InIdentityOk(s.vip, st.cfg.prefix), Junk, env.sendOk);
    } else if msg.None? || !IdentityHolds(s, msg.value) {
      DenyLog(st, k, 0, env.sendOk);
    } else {
      HoldsIsIdentity(s, msg.value);
      RegistryKeeps(st, msg.value, env);
      match ConsultRegistry(st, msg.value, env)
      case Rejected(u, reason) => DenyLog(u, k, reason, env.sendOk);
      case Registered(u) =>
        DenyLog(u, k, 2, env.sendOk);
        CalmFrame(st, u, k, msg.value.text.clientId, msg.value.text.cliPub);
        LogInSticks(u, k, msg.value.text.clientId, msg.value.text.cliPub, env);
    }
  }

  lemma TierFrame(st: Server, u: Server, vs: set<PeerKey>, id: string)
    requires st.pool == u.pool && st.lastVip == u.lastVip && Addresses(st, vs) == Addresses(u, vs)
    ensures TierOf(ReleaseAll(st, vs), id) == TierOf(ReleaseAll(u, vs), id)
  {
    hide Preferred, Addresses;
  }

  lemma CalmFrame(st: Server, u: Server, k: PeerKey, id: string, cliPub: SigKey)
    requires u.sessions == st.sessions && u.pool == st.pool && u.lastVip == st.lastVip
    ensures CalmLogin(st, k, id, cliPub) == CalmLogin(u, k, id, cliPub)
  {
    assert Kicked(st, k, cliPub) == Kicked(u, k, cliPub);
    assert Addresses(st, Kicked(st, k, cliPub)) == Addresses(u, Kicked(u, k, cliPub));
    TierFrame(st, u, Kicked(st, k, cliPub), id);
    hide TierOf, ReleaseAll, Kicked;
  }

  lemma OfferFrame(st: Server, k: PeerKey, s': Session, cliPub: SigKey)
    requires k in st.sessions && s' == st.sessions[k].(replay := s'.replay)
    ensures Kicked(Put(st, k, s'), k, cliPub) == Kicked(st, k, cliPub)
    ensures Addresses(Put(st, k, s'), Kicked(st, k, cliPub)) == Addresses(st, Kicked(st, k, cliPub))
  {
  }

  /** The session's bookkeeping plays no part in what makes a login calm. */
  lemma CalmAfterOffer(st: Server, k: PeerKey, s': Session, id: string, cliPub: SigKey)
    requires k in st.sessions && s' == st.sessions[k].(replay := s'.replay)
    ensures CalmLogin(st, k, id, cliPub) ==> CalmLogin(Put(st, k, s'), k, id, cliPub)
  {
    OfferFrame(st, k, s', cliPub);
    TierFrame(st, Put(st, k, s'), Kicked(st, k, cliPub), id);
    hide TierOf, ReleaseAll, Kicked, Addresses;
  }

  lemma InnerSticks(st: Server, k: PeerKey, inner: Inner, env: Env)
    requires Inv(st) && Sticky(st.lastVip, st.bindings)
    requires k in st.sessions && st.sessions[k].encReady && CalmInner(st, k, inner)
    ensures var u := HandleInner(st, k, inner, env); Sticky(u.lastVip, u.bindings)
  {
    hide Inv, Send, HandleIdentity, Release, Sticky, CalmMessage;
    match inner
    case InIdentity(msg) => IdentitySticks(st, k, msg, env);
    case InHeart => SendFields(st, k, MHeartResponse, InHeartResponse, Junk, env.sendOk);
    case _ => ReleaseFields(st, k);
  }

  lemma OfferSticks(st: Server, k: PeerKey, seqNo: nat, inner: Inner, env: Env)
    requires Inv(st) && Sticky(st.lastVip, st.bindings)
    requires k in st.sessions && st.sessions[k].encReady && CalmInner(st, k, inner)
    ensures var u := HandleInner(Put(st, k, st.sessions[k].(replay := st.sessions[k].replay.Offer(seqNo))), k, inner, env);
            Sticky(u.lastVip, u.bindings)
  {
    var s' := st.sessions[k].(replay := st.sessions[k].replay.Offer(seqNo));
    hide Inv, HandleInner, Sticky, CalmLogin;
    OfferKeeps(st, k, seqNo);
    if inner.InIdentity? && inner.msg.Some? && inner.msg.value.text.IdentityText? {
      CalmAfterOffer(st, k, s', inner.msg.value.text.clientId, inner.msg.value.text.cliPub);
    }
    InnerSticks(Put(st, k, s'), k, inner, env);
  }

  lemma SealedSticks(st: Server, k: PeerKey, f: Frame, env: Env)
    requires Inv(st) && Sticky(st.lastVip, st.bindings) && k in st.sessions
    requires Unseal(st.sessions[k].keyC2S, f).Some? ==> CalmInner(st, k, Unseal(st.sessions[k].keyC2S, f).value)
    ensures var u := HandleSealed(st, k, f, env); Sticky(u.lastVip, u.bindings)
  {
    var s := st.sessions[k];
    hide Inv, HandleInner, Sticky, CalmInner, Unseal;
    if s.encReady && Unseal(s.keyC2S, f).Some? {
      OfferSticks(st, k, f.hdr.seqNo, Unseal(s.keyC2S, f).value, env);
    }
  }

  lemma HelloLog(st: Server, k: PeerKey, p: Clear, env: Env)
    requires k in st.sessions
    ensures HandleAuthHello(st, k, p, env).lastVip == st.lastVip && HandleAuthHello(st, k, p, env).bindings == st.bindings
  {
    hide Send, Allow, Restarted, HelloReply;
    var s := st.sessions[k];
    var restarted := Restarted(s, if p.Hello? then p.nonceC else 0, env.nonceS);
    RestartShape(s, if p.Hello? then p.nonceC else 0, env.nonceS);
    forall u: Server, c | k in u.sessions
      ensures Send(u, k, MServerHello, InOther, c, env.sendOk).st.lastVip == u.lastVip
      ensures Send(u, k, MServerHello, InOther, c, env.sendOk).st.bindings == u.bindings
    {
      SendFields(u, k, MServerHello, InOther, c, env.sendOk);
    }
  }

  lemma StepSticks(st: Server, e: Event)
    requires Inv(st) && Possible(st, e) && Calm(st, e) && Sticky(st.lastVip, st.bindings)
    ensures Sticky(Step(st, e).lastVip, Step(st, e).bindings)
  {
    hide Inv, Send, Release, GetOrCreate, HandleFramed, Route, Sticky, CalmInner, Unseal;
    match e
    case Admit(k, env) => AdmitLeases(st, k, env.now, env.victim);
    case Arrive(k, f, env) =>
      if k in st.sessions { FramedSticks(st, k, f, env); }
    case End(k) => ReleaseFields(st, k);
    case Heartbeat(k, sendOk) =>
      if k in st.sessions { SendFields(st, k, MHeart, InHeart, Junk, sendOk); }
    case Downlink(dst, src, sendOk) =>
      RouteIsSession(st, dst);
      if Route(st, dst).Some? { SendFields(st, Route(st, dst).value, MData, InData(Some(src)), Junk, sendOk); }
    case Bye(k, sendOk) =>
      if k in st.sessions { SendFields(st, k, MDisconnect, InDisconnect, Junk, sendOk); }
  }

  lemma FramedSticks(st: Server, k: PeerKey, f: Frame, env: Env)
    requires Inv(st) && Sticky(st.lastVip, st.bindings) && k in st.sessions
    requires Unseal(st.sessions[k].keyC2S, f).Some? ==> CalmInner(st, k, Unseal(st.sessions[k].keyC2S, f).value)
    ensures var u := HandleFramed(st, k, f, env); Sticky(u.lastVip, u.bindings)
  {
    hide Inv, HandleSealed, HandleAuthHello, Sticky, CalmInner, Unseal;
    if SealedType(f.hdr.typ) {
      SealedSticks(st, k, f, env);
    } else if f.payload.Open? {
      HelloLog(st, k, f.payload.clear, env);
    }
  }

  lemma AdmitLeases(st: Server, k: PeerKey, now: int, victim: Option<PeerKey>)
    ensures GetOrCreate(st, k, now, victim).lastVip == st.lastVip
    ensures GetOrCreate(st, k, now, victim).bindings == st.bindings
  {
    if victim.Some? {
      ReleaseFields(st, victim.value);
    }
    hide Release, NewSession, Pending, FromIp, Admits;
  }

  // ---- every run ----------------------------------------------------------------------------

  lemma {:induction false} RunSticks(st: Server, es: seq<Event>)
    requires Started(st) && Injective(st.lastVip) && RunPossible(st, es) && RunCalm(st, es)
    ensures Sticky(Run(st, es).lastVip, Run(st, es).bindings)
  {
    if es != [] {
      var before := es[..|es| - 1];
      hide Inv, Sticky, Step, Possible, Calm;
      RunSticks(st, before);
      RunKeeps(st, before);
      StepSticks(Run(st, before), es[|es| - 1]);
    } else {
      hide RunPossible, RunCalm;
    }
  }

  /** Sticky addresses: over any run of calm logins, every login of a client id is
      given one address, also one that ends the id's still live old session, and no
      two ids are given the same. */
  lemma OneAddressPerId(st: Server, es: seq<Event>)
    requires Started(st) && Injective(st.lastVip) && RunPossible(st, es) && RunCalm(st, es)
    ensures forall b, c :: b in Run(st, es).bindings && c in Run(st, es).bindings ==> (b.clientId == c.clientId <==> b.vip == c.vip)
  {
    RunSticks(st, es);
    hide Started, RunPossible, RunCalm, Run;
  }
}
