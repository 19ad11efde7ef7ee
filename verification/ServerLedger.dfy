/** Who may log in: keys on the register, each bought with one token, each login
    signed by its key for its own handshake. */
module ServerLedger {
  import opened Text
  import opened Replay
  import opened Protocol
  import opened VipPool
  import opened RateLimiters
  import opened ServerSpec
  import opened ServerInv
  import opened ServerSteps
  import opened ServerMoves
  import opened ServerRuns

  /** From st to u keys were only added and tokens only used, at least one token for
      every new key, and every new login has its key on the register. */
  ghost predicate Ledger(st: Server, u: Server)
  {
    && st.clients <= u.clients && u.tokens <= st.tokens
    && |u.clients| + |u.tokens| <= |st.clients| + |st.tokens|
    && st.bindings <= u.bindings
    && forall b :: b in u.bindings && b !in st.bindings ==> b.cliPub.Some? && b.cliPub.value in u.clients
  }

  predicate SameBooks(st: Server, u: Server)
  {
    u.clients == st.clients && u.tokens == st.tokens && u.bindings == st.bindings
  }

  lemma SameIsLedger(st: Server, u: Server)
    requires SameBooks(st, u)
    ensures Ledger(st, u)
  {
  }

  lemma LedgerThrough(st: Server, u: Server, v: Server)
    requires Ledger(st, u) && Ledger(u, v)
    ensures Ledger(st, v)
  {
  }

  lemma SendBooks(st: Server, k: PeerKey, typ: MsgType, inner: Inner, clear: Clear, sendOk: bool)
    requires k in st.sessions
    ensures SameBooks(st, Send(st, k, typ, inner, clear, sendOk).st)
  {
    SendFields(st, k, typ, inner, clear, sendOk);
  }

  lemma DenyBooks(st: Server, k: PeerKey, reason: nat, sendOk: bool)
    requires k in st.sessions
    ensures SameBooks(st, Deny(st, k, reason, sendOk))
  {
    hide Send;
    SendFields(st, k, MIdentityDeny, InIdentityDeny(reason), Junk, sendOk);
  }

  /** A registration costs its token; a login costs nothing and needs the key on file. */
  lemma RegistryBooks(st: Server, m: IdentityMsg, env: Env)
    requires m.text.IdentityText?
    ensures var r := ConsultRegistry(st, m, env);
            && Ledger(st, r.st) && r.st.sessions == st.sessions
            && (r.Registered? ==> m.text.cliPub in r.st.clients)
            && (m.flags == 1 && r.Registered? ==> m.token in st.tokens && r.st.tokens == st.tokens - multiset{m.token})
  {
    var u := ConsultRegistry(st, m, env).st;
    if m.text.cliPub !in st.clients {
      assert |st.clients + {m.text.cliPub}| == |st.clients| + 1;
    } else {
      assert st.clients + {m.text.cliPub} == st.clients;
    }
    if m.token in st.tokens {
      assert st.tokens == (st.tokens - multiset{m.token}) + multiset{m.token};
    }
  }

  lemma LogInBooks(st: Server, k: PeerKey, id: string, cliPub: SigKey, env: Env)
    requires k in st.sessions && cliPub in st.clients
    ensures Ledger(st, LogIn(st, k, id, cliPub, env))
  {
    var named := Put(st, k, st.sessions[k].(clientId := id, cliPub := Some(cliPub)));
    var alone := ReleaseAll(named, Victims(named, k));
    assert k in alone.sessions && alone.sessions[k].cliPub == Some(cliPub) && SameBooks(st, alone);
    AllocateGives(alone, id, env.draws);
    var g := AllocateVip(alone, id, env.draws);
    AllocateBooks(alone, g.st);
    hide Send, AllocateVip, Ledger, ReleaseAll, Deny, Admitting, Victims;
    if alone.sessions[k].ipAssigned {
      AdmittingBooks(alone, k, env);
      BooksThen(st, alone, LogIn(st, k, id, cliPub, env));
    } else if g.ip == 0 {
      DenyBooks(g.st, k, 0, env.sendOk);
      SameIsLedger(st, LogIn(st, k, id, cliPub, env));
    } else {
      var placed := Assign(g.st, k, g.ip);
      AdmittingBooks(placed, k, env);
      BooksThen(st, placed, LogIn(st, k, id, cliPub, env));
    }
  }

  lemma AllocateBooks(st: Server, u: Server)
    requires u == st.(pool := u.pool, lastVip := u.lastVip)
    ensures SameBooks(st, u) && u.sessions == st.sessions
  {
  }

  lemma BooksThen(st: Server, u: Server, v: Server)
    requires SameBooks(st, u) && Ledger(u, v)
    ensures Ledger(st, v)
  {
  }

  lemma AdmittingBooks(st: Server, k: PeerKey, env: Env)
    requires k in st.sessions && st.sessions[k].cliPub.Some? && st.sessions[k].cliPub.value in st.clients
    ensures Ledger(st, Admitting(st, k, env))
  {
    var gate := OpenGate(st, k);
    GateBooks(st, k);
    hide Send, OpenGate;
    SendBooks(gate, k, MIdentityOk, InIdentityOk(st.sessions[k].vip, st.cfg.prefix), Junk, env.sendOk);
  }

  lemma GateBooks(st: Server, k: PeerKey)
    requires k in st.sessions && st.sessions[k].cliPub.Some? && st.sessions[k].cliPub.value in st.clients
    ensures Ledger(st, OpenGate(st, k)) && k in OpenGate(st, k).sessions
  {
  }

  lemma IdentityBooks(st: Server, k: PeerKey, msg: Option<IdentityMsg>, env: Env)
    requires k in st.sessions
    ensures Ledger(st, HandleIdentity(st, k, msg, env))
  {
    var s := st.sessions[k];
    hide Send, Deny, LogIn, IdentityHolds, Ledger, ConsultRegistry;
    if s.authenticated {
      SendBooks(st, k, MIdentityOk, InIdentityOk(s.vip, st.cfg.prefix), Junk, env.sendOk);
      SameIsLedger(st, HandleIdentity(st, k, msg, env));
    } else if msg.None? || !IdentityHolds(s, msg.value) {
      DenyBooks(st, k, 0, env.sendOk);
      SameIsLedger(st, HandleIdentity(st, k, msg, env));
    } else {
      HoldsIsIdentity(s, msg.value);
      RegistryBooks(st, msg.value, env);
      var c := ConsultRegistry(st, msg.value, env);
      if c.Rejected? {
        DenyBooks(c.st, k, c.reason, env.sendOk);
        SameIsLedger(c.st, HandleIdentity(st, k, msg, env));
      } else if env.svcRefuses {
        DenyBooks(c.st, k, 2, env.sendOk);
        SameIsLedger(c.st, HandleIdentity(st, k, msg, env));
      } else {
        LogInBooks(c.st, k, msg.value.text.clientId, msg.value.text.cliPub, env);
      }
      LedgerThrough(st, c.st, HandleIdentity(st, k, msg, env));
    }
  }

  lemma InnerBooks(st: Server, k: PeerKey, inner: Inner, env: Env)
    requires k in st.sessions
    ensures Ledger(st, HandleInner(st, k, inner, env))
  {
    hide Send, HandleIdentity, Release, Ledger;
    match inner
    case InIdentity(msg) => IdentityBooks(st, k, msg, env);
    case InHeart =>
      SendBooks(st, k, MHeartResponse, InHeartResponse, Junk, env.sendOk);
      SameIsLedger(st, HandleInner(st, k, inner, env));
    case _ =>
      ReleaseFields(st, k);
      SameIsLedger(st, HandleInner(st, k, inner, env));
  }

  lemma SealedBooks(st: Server, k: PeerKey, f: Frame, env: Env)
    requires k in st.sessions
    ensures Ledger(st, HandleSealed(st, k, f, env))
  {
    var s := st.sessions[k];
    var v := Put(st, k, s.(replay := s.replay.Offer(f.hdr.seqNo)));
    hide HandleInner, Unseal, Ledger;
    SameIsLedger(st, st);
    if Unseal(s.keyC2S, f).Some? {
      InnerBooks(v, k, Unseal(s.keyC2S, f).value, env);
      BooksThen(st, v, HandleInner(v, k, Unseal(s.keyC2S, f).value, env));
    }
  }

  lemma HelloBooks(st: Server, k: PeerKey, p: Clear, env: Env)
    requires k in st.sessions
    ensures SameBooks(st, HandleAuthHello(st, k, p, env))
  {
    hide SendServerHello, Allow, Restarted, SameBooks;
    var s := st.sessions[k];
    BooksSelf(st);
    if p.Hello? && st.cfg.signKey.Some? {
      var rl := Allow(st.hsRl, k.ip, env.now);
      var restarted := Restarted(s, p.nonceC, env.nonceS);
      var charged := st.(hsRl := rl.table);
      RestartShape(s, p.nonceC, env.nonceS);
      BooksOf(st, charged, k, restarted, env.ephemeral);
      if s.nonceC.Some? && s.nonceS.Some? && s.dhSrv.Some? {
        SendHelloBooks(st, k, st.cfg.signKey.value, env);
      }
      if env.ephemeral.Some? {
        var e := env.ephemeral.value;
        var keyed := Put(charged, k, restarted.(dhPriv := Some(e), dhSrv := Some(Pub(e)))).(issued := st.issued + {e});
        SendHelloBooks(keyed, k, st.cfg.signKey.value, env);
        BooksJoin(st, keyed, SendServerHello(keyed, k, st.cfg.signKey.value, env));
      }
    }
  }

  lemma BooksSelf(st: Server)
    ensures SameBooks(st, st)
  {
  }

  lemma BooksJoin(st: Server, u: Server, v: Server)
    requires SameBooks(st, u) && SameBooks(u, v)
    ensures SameBooks(st, v)
  {
  }

  lemma BooksOf(st: Server, charged: Server, k: PeerKey, s: Session, e: Option<Priv>)
    requires charged == st.(hsRl := charged.hsRl)
    ensures SameBooks(st, charged) && SameBooks(st, Put(charged, k, s))
    ensures e.Some? ==>
              SameBooks(st, Put(charged, k, s.(dhPriv := e, dhSrv := Some(Pub(e.value)))).(issued := st.issued + {e.value}))
  {
  }

  lemma SendHelloBooks(st: Server, k: PeerKey, signKey: SigKey, env: Env)
    requires k in st.sessions
    requires var s := st.sessions[k]; s.nonceC.Some? && s.nonceS.Some? && s.dhSrv.Some?
    ensures SameBooks(st, SendServerHello(st, k, signKey, env))
  {
    var s := st.sessions[k];
    hide Send, HelloReply, WithReply, SendServerHello;
    SendsOrStays(st, k, signKey, env);
    if s.hello.Some? || env.signOk {
      var cached := WithReply(s, signKey);
      SendsCached(st, k, signKey, env);
      SendBooks(Put(st, k, cached), k, MServerHello, InOther, cached.hello.value, env.sendOk);
    }
  }

  lemma SendsOrStays(st: Server, k: PeerKey, signKey: SigKey, env: Env)
    requires k in st.sessions
    requires var s := st.sessions[k]; s.nonceC.Some? && s.nonceS.Some? && s.dhSrv.Some?
    ensures st.sessions[k].hello.None? && !env.signOk ==> SendServerHello(st, k, signKey, env) == st
  {
    hide Send;
  }

  lemma FramedBooks(st: Server, k: PeerKey, f: Frame, env: Env)
    requires k in st.sessions
    ensures Ledger(st, HandleFramed(st, k, f, env))
  {
    hide HandleSealed, HandleAuthHello, Ledger;
    SameIsLedger(st, st);
    if SealedType(f.hdr.typ) {
      SealedBooks(st, k, f, env);
    } else if f.payload.Open? {
      HelloBooks(st, k, f.payload.clear, env);
      SameIsLedger(st, HandleAuthHello(st, k, f.payload.clear, env));
      SameIsLedger(st, HandleClientHello(st, k, f.payload.clear, env));
    }
  }

  lemma StepBooks(st: Server, e: Event)
    ensures Ledger(st, Step(st, e))
  {
    hide Send, Release, GetOrCreate, HandleFramed, Route, Ledger;
    SameIsLedger(st, st);
    match e
    case Admit(k, env) =>
      AdmitBooks(st, k, env.now, env.victim);
      SameIsLedger(st, Step(st, e));
    case Arrive(k, f, env) => if k in st.sessions { FramedBooks(st, k, f, env); }
    case End(k) =>
      ReleaseFields(st, k);
      SameIsLedger(st, Step(st, e));
    case Heartbeat(k, sendOk) =>
      if k in st.sessions { SendBooks(st, k, MHeart, InHeart, Junk, sendOk); }
      SameIsLedger(st, Step(st, e));
    case Downlink(dst, src, sendOk) =>
      RouteIsSession(st, dst);
      if Route(st, dst).Some? { SendBooks(st, Route(st, dst).value, MData, InData(Some(src)), Junk, sendOk); }
      SameIsLedger(st, Step(st, e));
    case Bye(k, sendOk) =>
      if k in st.sessions { SendBooks(st, k, MDisconnect, InDisconnect, Junk, sendOk); }
      SameIsLedger(st, Step(st, e));
  }

  lemma AdmitBooks(st: Server, k: PeerKey, now: int, victim: Option<PeerKey>)
    ensures SameBooks(st, GetOrCreate(st, k, now, victim))
  {
    if victim.Some? {
      ReleaseFields(st, victim.value);
    }
    hide Release, NewSession, Pending, FromIp, Admits;
  }

  /** Over any run every login was made with a registered key, keys leave the register
      never, and no more keys were added than tokens used up. */
  lemma {:induction false} RunBooks(st: Server, es: seq<Event>)
    requires Started(st)
    ensures var u := Run(st, es);
            && st.clients <= u.clients && u.tokens <= st.tokens
            && |u.clients| - |st.clients| <= |st.tokens| - |u.tokens|
            && forall b :: b in u.bindings ==> b.cliPub.Some? && b.cliPub.value in u.clients
  {
    if es != [] {
      RunBooks(st, es[..|es| - 1]);
      StepBooks(Run(st, es[..|es| - 1]), es[|es| - 1]);
      hide Step;
    }
  }

  /** A login is made only for a message, opened under the session's own key, in which
      the logged-in key signs exactly this handshake and this client id. */
  lemma LoginIsSigned(st: Server, e: Event, b: Binding)
    requires Inv(st) && Possible(st, e) && b in Step(st, e).bindings && b !in st.bindings
    ensures e.Arrive? && e.key == b.key && e.key in st.sessions
    ensures b.nonceC.Some? && b.nonceS.Some? && b.dhCli.Some? && b.dhSrv.Some? && b.cliPub.Some?
    ensures e.frame.payload.Sealed? && b.keyC2S == Some(e.frame.payload.key)
    ensures var text := IdentityText(b.nonceC.value, b.nonceS.value, b.dhCli.value, b.dhSrv.value, b.cliPub.value, b.clientId);
            var inner := e.frame.payload.inner;
            inner.InIdentity? && inner.msg.Some? && inner.msg.value.text == text
            && inner.msg.value.sig == Signature(b.cliPub.value, text)
  {
    hide Inv, Step, CarriedBy, Moves;
    if e.Admit? {
      AdmitLog(st, e.key, e.env.now, e.env.victim);
      AdmitStep(st, e);
    } else {
      var mv, t := StepEffect(st, e);
      if Acting(st, e).Some? {
        SignedGate(st, Acting(st, e).value, e.frame, t, mv, b);
      }
    }
  }

  lemma SignedGate(st: Server, k: PeerKey, f: Frame, t: Session, mv: Move, b: Binding)
    requires k in st.sessions && mv.Gated? && Moves(Core(st.sessions[k]), t, mv, st.issued) && CarriedBy(st.sessions[k], t, f)
    requires b == BindingOf(k, t, st.cfg.prefix)
    ensures b.key == k && f.payload.Sealed? && b.keyC2S == Some(f.payload.key)
    ensures b.nonceC.Some? && b.nonceS.Some? && b.dhCli.Some? && b.dhSrv.Some? && b.cliPub.Some?
    ensures var text := IdentityText(b.nonceC.value, b.nonceS.value, b.dhCli.value, b.dhSrv.value, b.cliPub.value, b.clientId);
            var inner := f.payload.inner;
            inner.InIdentity? && inner.msg.Some? && inner.msg.value.text == text
            && inner.msg.value.sig == Signature(b.cliPub.value, text)
  {
  }
}
