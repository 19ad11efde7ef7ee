/** Whole runs of the server: what holds after any sequence of events. */
module ServerRuns {
  import opened Text
  import opened Replay
  import opened Protocol
  import opened VipPool
  import opened RateLimiters
  import opened ServerSpec
  import opened ServerInv
  import opened ServerSteps
  import opened ServerMoves

  /** One locked section or handler call. End stands for every outside reason to
      release a session: a timeout, a closed connection, a block list. */
  datatype Event = Admit(key: PeerKey, env: Env)
                 | Arrive(key: PeerKey, frame: Frame, env: Env)
                 | End(key: PeerKey)
                 | Heartbeat(key: PeerKey, sendOk: bool)
                 | Downlink(dst: nat, src: nat, sendOk: bool)
                 | Bye(key: PeerKey, sendOk: bool)

  ghost predicate Possible(st: Server, e: Event)
  {
    match e
    case Admit(k, env) => VictimOk(st, k.ip, env.victim)
    case Arrive(_, _, env) => EnvFresh(st, env)
    case _ => true
  }

  function Step(st: Server, e: Event): Server
  {
    match e
    case Admit(k, env) => GetOrCreate(st, k, env.now, env.victim)
    case Arrive(k, f, env) => if k in st.sessions then HandleFramed(st, k, f, env) else st
    case End(k) => Release(st, k)
    case Heartbeat(k, sendOk) =>
      if k in st.sessions && st.sessions[k].authenticated then SendSealed(st, k, MHeart, InHeart, sendOk) else st
    case Downlink(dst, src, sendOk) =>
      var to := Route(st, dst);
      if to.Some? then SendSealed(st, to.value, MData, InData(Some(src)), sendOk) else st
    case Bye(k, sendOk) =>
      if k in st.sessions && st.sessions[k].authenticated then Send(st, k, MDisconnect, InDisconnect, Junk, sendOk).st else st
  }

  function Run(st: Server, es: seq<Event>): Server
  {
    if es == [] then st else Step(Run(st, es[..|es| - 1]), es[|es| - 1])
  }

  ghost predicate RunPossible(st: Server, es: seq<Event>)
  {
    es != [] ==> RunPossible(st, es[..|es| - 1]) && Possible(Run(st, es[..|es| - 1]), es[|es| - 1])
  }

  // ---- one frame -------------------------------------------------------------------

  /** The frame that carried this identity message, opened under the session's key. */
  ghost predicate CarriedBy(s: Session, t: Session, f: Frame)
  {
    && Unseal(s.keyC2S, f).Some? && Unseal(s.keyC2S, f).value.InIdentity?
    && LoginBy(s, t, Unseal(s.keyC2S, f).value.msg)
  }

  lemma FramedEffect(st: Server, k: PeerKey, f: Frame, env: Env) returns (mv: Move, t: Session)
    requires Inv(st) && k in st.sessions && EnvFresh(st, env)
    ensures Effect(st, k, HandleFramed(st, k, f, env), mv, t)
    ensures mv.Named? || mv.Gated? ==> CarriedBy(st.sessions[k], t, f)
    ensures mv.Restart? ==> t.dhPriv == env.ephemeral
    ensures st.sessions[k].stage.Authed? && f.payload.Open? ==> HandleFramed(st, k, f, env) == st
  {
    StaysQuiet(st, k);
    AuthedIgnoresClientHello(st, k);
    hide Inv, Effect, HandleSealed, HandleAuthHello, HandleClientHello, Unseal, Core, LoginBy, CarriedBy;
    mv, t := Quiet, Core(st.sessions[k]);
    if f.hdr.version == (if k.tcp then V_TCP else V_UDP) {
      if SealedType(f.hdr.typ) {
        mv, t := SealedEffect(st, k, f, env);
      } else if f.payload.Open? && f.hdr.typ.MAuthHello? {
        mv, t := HelloEffect(st, k, f.payload.clear, env);
      } else if f.payload.Open? && f.hdr.typ.MClientHello? {
        mv, t := ClientHelloEffect(st, k, f.payload.clear, env);
      }
    }
  }

  lemma SealedEffect(st: Server, k: PeerKey, f: Frame, env: Env) returns (mv: Move, t: Session)
    requires Inv(st) && k in st.sessions
    ensures Effect(st, k, HandleSealed(st, k, f, env), mv, t)
    ensures mv.Quiet? || ((mv.Named? || mv.Gated?) && CarriedBy(st.sessions[k], t, f))
    ensures f.payload.Open? ==> HandleSealed(st, k, f, env) == st
  {
    var s := st.sessions[k];
    var s' := s.(replay := s.replay.Offer(f.hdr.seqNo));
    StaysQuiet(st, k);
    OpenNeverUnseals(s.keyC2S, f);
    ReplayCore(s, s');
    hide Inv, Effect, HandleInner, Unseal, Core, LoginBy, Moves;
    mv, t := Quiet, Core(s);
    if s.encReady && !s.replay.TooOld(f.hdr.seqNo) && Unseal(s.keyC2S, f).Some? && s.replay.Accepts(f.hdr.seqNo) {
      OfferKeeps(st, k, f.hdr.seqNo);
      mv, t := OpenedEffect(st, k, s', Unseal(s.keyC2S, f).value, env);
    }
  }

  lemma OpenedEffect(st: Server, k: PeerKey, s': Session, inner: Inner, env: Env) returns (mv: Move, t: Session)
    requires k in st.sessions && Inv(Put(st, k, s')) && s' == st.sessions[k].(replay := s'.replay) && s'.encReady
    ensures Effect(st, k, HandleInner(Put(st, k, s'), k, inner, env), mv, t)
    ensures mv.Quiet? || ((mv.Named? || mv.Gated?) && inner.InIdentity? && LoginBy(st.sessions[k], t, inner.msg))
  {
    ReplayCore(st.sessions[k], s');
    hide Inv, Effect, HandleInner, Core, LoginBy;
    mv, t := InnerEffect(Put(st, k, s'), k, inner, env);
    QuietThen(st, k, s', HandleInner(Put(st, k, s'), k, inner, env), mv, t);
    LoginByCore(st.sessions[k], s', t, inner);
  }

  lemma AuthedIgnoresClientHello(st: Server, k: PeerKey)
    requires k in st.sessions
    ensures st.sessions[k].stage.Authed? ==> forall p, env :: HandleClientHello(st, k, p, env) == st
  {
  }

  lemma OpenNeverUnseals(key: Option<SessionKey>, f: Frame)
    ensures f.payload.Open? ==> Unseal(key, f).None?
  {
  }

  lemma ReplayCore(s: Session, t: Session)
    requires t == s.(replay := t.replay)
    ensures Core(t) == Core(s)
  {
  }

  lemma LoginByCore(s: Session, s': Session, t: Session, inner: Inner)
    requires s' == s.(replay := s'.replay)
    ensures inner.InIdentity? && LoginBy(s', t, inner.msg) ==> LoginBy(s, t, inner.msg)
  {
  }

  lemma InnerEffect(st: Server, k: PeerKey, inner: Inner, env: Env) returns (mv: Move, t: Session)
    requires Inv(st) && k in st.sessions && st.sessions[k].encReady
    ensures Effect(st, k, HandleInner(st, k, inner, env), mv, t)
    ensures mv.Quiet? || ((mv.Named? || mv.Gated?) && inner.InIdentity? && LoginBy(st.sessions[k], t, inner.msg))
  {
    StaysQuiet(st, k);
    hide Inv, Effect, Send, HandleIdentity, HandleData, Core, LoginBy, Release;
    mv, t := Quiet, Core(st.sessions[k]);
    match inner
    case InData(src) => ThenData(st, k, src, env);
    case InHeart => ThenSend(st, k, st, mv, t, MHeartResponse, InHeartResponse, Junk, env.sendOk);
    case InIdentity(msg) => mv, t := IdentityEffect(st, k, msg, env);
    case InDisconnect =>
      ThenRelease(st, k, st, mv, t);
      DropCore(st.sessions[k]);
      ThenPut(st, k, st, mv, t, st.sessions[k].(tcpDrop := true));
    case _ =>
  }

  lemma ThenData(st: Server, k: PeerKey, src: Option<nat>, env: Env)
    requires k in st.sessions
    ensures Effect(st, k, HandleData(st, k, src, env), Quiet, Core(st.sessions[k]))
  {
    StaysQuiet(st, k);
    hide Effect, Core, Release;
    ThenRelease(st, k, st, Quiet, Core(st.sessions[k]));
    ThenUplink(st, k, src.GetOr(0));
  }

  lemma DropCore(s: Session)
    ensures Core(s.(tcpDrop := true)) == Core(s)
  {
  }

  lemma ThenUplink(st: Server, k: PeerKey, src: nat)
    requires k in st.sessions
    ensures Effect(st, k, st.(uplinks := st.uplinks + [Uplink(k, src)]), Quiet, Core(st.sessions[k]))
  {
    StaysQuiet(st, k);
    ThenQuiet(st, k, st, Quiet, Core(st.sessions[k]), st.(uplinks := st.uplinks + [Uplink(k, src)]));
  }

  // ---- one login per server key ---------------------------------------------------------

  ghost predicate DistinctKeys(st: Server)
  {
    forall k, l :: k in st.sessions && l in st.sessions && k != l && st.sessions[k].encReady && st.sessions[l].encReady
      ==> st.sessions[k].dhSrv != st.sessions[l].dhSrv
  }

  ghost predicate NotYetBound(st: Server)
  {
    forall k, b :: k in st.sessions && b in st.bindings && st.sessions[k].stage.KeysReady? ==> b.dhSrv != st.sessions[k].dhSrv
  }

  ghost predicate OneLogin(st: Server)
  {
    forall b, c :: b in st.bindings && c in st.bindings && b.dhSrv == c.dhSrv ==> b == c
  }

  /** No two sessions hold keys from one ephemeral key of the server, and no two
      logins were made under one. */
  ghost predicate UniqueOk(st: Server)
  {
    DistinctKeys(st) && NotYetBound(st) && OneLogin(st)
  }

  /** The part of a session these predicates look at. */
  datatype Look = Look(encReady: bool, keysReady: bool, dhSrv: Option<Pub>)

  function LookOf(s: Session): Look
  {
    Look(s.encReady, s.stage.KeysReady?, s.dhSrv)
  }

  lemma UniqueAfterEffect(st: Server, k: PeerKey, u: Server, mv: Move, t: Session)
    requires Inv(st) && UniqueOk(st) && k in st.sessions && Effect(st, k, u, mv, t)
    ensures UniqueOk(u)
  {
    KeysOf(st);
    MoveKeys(st.sessions[k], t, mv, st.issued);
    BindingServerKey(k, t, st.cfg.prefix);
    EffectLooks(st, k, u, mv, t);
    hide Inv, Moves, Effect, WithKeys, WithAddress, BindingOf, LookOf, StageOk, Core;
    UniqueByLooks(st, k, u, mv, LookOf(t), BindingOf(k, t, st.cfg.prefix));
  }

  lemma EffectLooks(st: Server, k: PeerKey, u: Server, mv: Move, t: Session)
    requires k in st.sessions && Effect(st, k, u, mv, t)
    ensures forall l :: l in u.sessions ==> l in st.sessions && LookOf(u.sessions[l]) == (if l == k then LookOf(t) else LookOf(st.sessions[l]))
    ensures u.bindings == (if mv.Gated? then st.bindings + {BindingOf(k, t, st.cfg.prefix)} else st.bindings)
  {
    assert k in u.sessions ==> LookOf(u.sessions[k]) == LookOf(Core(u.sessions[k]));
    hide Moves, BindingOf, Core;
  }

  lemma UniqueByLooks(st: Server, k: PeerKey, u: Server, mv: Move, t: Look, b: Binding)
    requires UniqueOk(st) && k in st.sessions
    requires forall l :: l in u.sessions ==> l in st.sessions && LookOf(u.sessions[l]) == (if l == k then t else LookOf(st.sessions[l]))
    requires u.bindings == (if mv.Gated? then st.bindings + {b} else st.bindings) && b.dhSrv == t.dhSrv
    requires forall l :: l in st.sessions && st.sessions[l].encReady ==>
               st.sessions[l].dhSrv.Some? && st.sessions[l].dhSrv.value.priv in st.spent
    requires forall l :: l in st.sessions && st.sessions[l].stage.KeysReady? ==> st.sessions[l].encReady
    requires forall b :: b in st.bindings ==> b.dhSrv.Some? && b.dhSrv.value.priv in st.spent
    requires t.keysReady ==> t.encReady
    requires mv.Gated? ==> st.sessions[k].encReady && st.sessions[k].stage.KeysReady? && t.encReady && !t.keysReady
    requires t.encReady ==> if mv.Keyed? then t.dhSrv.Some? && t.dhSrv.value.priv !in st.spent
                            else st.sessions[k].encReady && t.dhSrv == st.sessions[k].dhSrv && (t.keysReady ==> st.sessions[k].stage.KeysReady?)
    ensures UniqueOk(u)
  {
    assert forall s :: LookOf(s) == Look(s.encReady, s.stage.KeysReady?, s.dhSrv);
    hide LookOf;
    assert DistinctKeys(u) by { hide NotYetBound, OneLogin; }
    assert NotYetBound(u) by { assert NotYetBound(st); }
    assert OneLogin(u) by { hide DistinctKeys; }
  }

  lemma BindingServerKey(k: PeerKey, t: Session, prefix: nat)
    ensures BindingOf(k, t, prefix).dhSrv == t.dhSrv
  {
  }

  /** What a move does to the keys of a session. */
  lemma MoveKeys(s: Session, t: Session, mv: Move, issued: set<Priv>)
    requires Moves(Core(s), t, mv, issued) && StageOk(s)
    ensures !t.encReady ==> !t.stage.KeysReady?
    ensures mv.Gated? ==> s.encReady && s.stage.KeysReady? && t.encReady && !t.stage.KeysReady?
    ensures LookOf(t) == Look(t.encReady, t.stage.KeysReady?, t.dhSrv)
    ensures t.encReady ==> if mv.Keyed? then s.dhPriv.Some? && t.dhSrv == Some(Pub(s.dhPriv.value))
                           else s.encReady && t.dhSrv == s.dhSrv && (t.stage.KeysReady? ==> s.stage.KeysReady?)
  {
  }

  lemma KeysOf(st: Server)
    requires Inv(st)
    ensures forall k :: k in st.sessions ==> StageOk(st.sessions[k]) && (st.sessions[k].stage.KeysReady? ==> st.sessions[k].encReady)
    ensures forall k :: k in st.sessions && st.sessions[k].encReady ==>
              st.sessions[k].dhSrv.Some? && st.sessions[k].dhSrv.value.priv in st.spent
    ensures forall k :: k in st.sessions && st.sessions[k].dhPriv.Some? ==> st.sessions[k].dhPriv.value !in st.spent
    ensures forall b :: b in st.bindings ==> b.dhSrv.Some? && b.dhSrv.value.priv in st.spent
  {
    forall k | k in st.sessions
      ensures StageOk(st.sessions[k])
    {
      StageOf(st, k);
    }
    forall b | b in st.bindings
      ensures b.dhSrv.Some? && b.dhSrv.value.priv in st.spent
    {
      assert BindingSound(st, b);
    }
  }

  // ---- every step -----------------------------------------------------------------------

  lemma StepKeeps(st: Server, e: Event)
    requires Inv(st) && Possible(st, e)
    ensures Inv(Step(st, e))
  {
    hide Inv, Send, Release, GetOrCreate, HandleFramed, Route;
    match e
    case Admit(k, env) => AdmitKeeps(st, k, env.now, env.victim);
    case Arrive(k, f, env) => if k in st.sessions { FramedKeeps(st, k, f, env); }
    case End(k) => ReleaseKeeps(st, k);
    case Heartbeat(k, sendOk) =>
      if k in st.sessions { SendKeeps(st, k, MHeart, InHeart, Junk, sendOk); }
    case Downlink(dst, src, sendOk) =>
      RouteIsSession(st, dst);
      if Route(st, dst).Some? { SendKeeps(st, Route(st, dst).value, MData, InData(Some(src)), Junk, sendOk); }
    case Bye(k, sendOk) =>
      if k in st.sessions { SendKeeps(st, k, MDisconnect, InDisconnect, Junk, sendOk); }
  }

  lemma RouteIsSession(st: Server, dst: nat)
    ensures Route(st, dst).Some? ==> Route(st, dst).value in st.sessions && st.sessions[Route(st, dst).value].authenticated
  {
  }

  /** The session an event runs for, if it runs for one. */
  function Acting(st: Server, e: Event): Option<PeerKey>
  {
    match e
    case Admit(_, _) => None
    case Downlink(dst, _, _) => Route(st, dst)
    case _ => if e.key in st.sessions then Some(e.key) else None
  }

  lemma StepEffect(st: Server, e: Event) returns (mv: Move, t: Session)
    requires Inv(st) && Possible(st, e)
    ensures !e.Admit? && Acting(st, e).Some? ==>
              var k := Acting(st, e).value;
              && k in st.sessions && Effect(st, k, Step(st, e), mv, t)
              && (mv.Named? || mv.Gated? ==> e.Arrive? && CarriedBy(st.sessions[k], t, e.frame))
              && (mv.Restart? ==> e.Arrive? && t.dhPriv == e.env.ephemeral)
    ensures !e.Admit? && Acting(st, e).None? ==> Step(st, e) == st
  {
    hide Inv, Send, Release, HandleFramed, Effect, CarriedBy;
    RouteIsKey(st, e);
    mv, t := Quiet, NewSession(0);
    if !e.Admit? && Acting(st, e).Some? {
      var k := Acting(st, e).value;
      StaysQuiet(st, k);
      t := Core(st.sessions[k]);
      match e
      case Arrive(_, f, env) => mv, t := FramedEffect(st, k, f, env);
      case End(_) => ThenRelease(st, k, st, mv, t);
      case Heartbeat(_, sendOk) => ThenSend(st, k, st, mv, t, MHeart, InHeart, Junk, sendOk);
      case Downlink(_, src, sendOk) => ThenSend(st, k, st, mv, t, MData, InData(Some(src)), Junk, sendOk);
      case Bye(_, sendOk) => ThenSend(st, k, st, mv, t, MDisconnect, InDisconnect, Junk, sendOk);
    } else if e.End? {
      ReleaseAbsent(st, e.key);
    }
  }

  lemma RouteIsKey(st: Server, e: Event)
    ensures Acting(st, e).Some? ==> Acting(st, e).value in st.sessions
  {
  }

  lemma ReleaseAbsent(st: Server, k: PeerKey)
    requires k !in st.sessions
    ensures Release(st, k) == st
  {
  }

  lemma UniqueAfterAdmit(st: Server, k: PeerKey, now: int, victim: Option<PeerKey>)
    requires UniqueOk(st) && VictimOk(st, k.ip, victim)
    ensures UniqueOk(GetOrCreate(st, k, now, victim))
  {
    var u := GetOrCreate(st, k, now, victim);
    AdmitLog(st, k, now, victim);
    var n := NewSession(now);
    assert !n.encReady && !n.stage.KeysReady?;
    forall l | l in u.sessions
      ensures if l in st.sessions then u.sessions[l] == st.sessions[l] else u.sessions[l] == n
    {
      AdmitAddsOnlyNewcomer(st, k, now, victim, l);
    }
    hide GetOrCreate, NewSession, VictimOk;
    UniqueWithBlank(st, u, n);
  }

  lemma UniqueWithBlank(st: Server, u: Server, n: Session)
    requires UniqueOk(st) && u.bindings == st.bindings && !n.encReady && !n.stage.KeysReady?
    requires forall l :: l in u.sessions ==> if l in st.sessions then u.sessions[l] == st.sessions[l] else u.sessions[l] == n
    ensures UniqueOk(u)
  {
    assert DistinctKeys(u) by { hide NotYetBound, OneLogin; }
    assert NotYetBound(u) by { hide DistinctKeys, OneLogin; }
  }

  lemma AdmitLog(st: Server, k: PeerKey, now: int, victim: Option<PeerKey>)
    ensures var u := GetOrCreate(st, k, now, victim);
            u.cfg == st.cfg && u.bindings == st.bindings && u.issued == st.issued && u.spent == st.spent && u.out == st.out
  {
    if victim.Some? {
      ReleaseFields(st, victim.value);
    }
    hide Release, NewSession, Pending, FromIp, Admits;
  }

  lemma StepUnique(st: Server, e: Event)
    requires Inv(st) && UniqueOk(st) && Possible(st, e)
    ensures UniqueOk(Step(st, e))
  {
    hide Inv, UniqueOk, Step, Effect, Acting;
    if e.Admit? {
      UniqueAfterAdmit(st, e.key, e.env.now, e.env.victim);
      AdmitStep(st, e);
    } else {
      var mv, t := StepEffect(st, e);
      if Acting(st, e).Some? {
        UniqueAfterEffect(st, Acting(st, e).value, Step(st, e), mv, t);
      }
    }
  }

  lemma AdmitStep(st: Server, e: Event)
    requires e.Admit?
    ensures Step(st, e) == GetOrCreate(st, e.key, e.env.now, e.env.victim)
    ensures Possible(st, e) == VictimOk(st, e.key.ip, e.env.victim)
  {
  }

  // ---- every run -------------------------------------------------------------------------

  /** After any run from a fresh start: handshake stages, the address bijection, the
      admission caps, single-use ephemeral keys, sound history and unique logins. */
  lemma {:induction false} RunKeeps(st: Server, es: seq<Event>)
    requires Started(st) && RunPossible(st, es)
    ensures Inv(Run(st, es)) && UniqueOk(Run(st, es))
  {
    hide Inv, UniqueOk, Step, Possible;
    if es == [] {
      StartedIsInv(st);
      StartedIsUnique(st);
    } else {
      RunKeeps(st, es[..|es| - 1]);
      StepKeeps(Run(st, es[..|es| - 1]), es[|es| - 1]);
      StepUnique(Run(st, es[..|es| - 1]), es[|es| - 1]);
    }
  }

  lemma StartedIsUnique(st: Server)
    requires Started(st)
    ensures UniqueOk(st)
  {
  }

  /** The keys, the address and the identity of a logged-in session never change
      while it lives. */
  lemma LoginIsPermanent(st: Server, e: Event, l: PeerKey)
    requires Inv(st) && Possible(st, e)
    requires l in st.sessions && st.sessions[l].stage.Authed? && l in Step(st, e).sessions
    ensures Core(Step(st, e).sessions[l]) == Core(st.sessions[l])
  {
    hide Inv, Step, Acting;
    if e.Admit? {
      AdmitStep(st, e);
      AdmitAddsOnlyNewcomer(st, e.key, e.env.now, e.env.victim, l);
    } else {
      var mv, t := StepEffect(st, e);
      if Acting(st, e) == Some(l) {
        AuthedOnlyQuiet(st.sessions[l], t, mv, st.issued);
      }
    }
  }

  lemma AuthedOnlyQuiet(s: Session, t: Session, mv: Move, issued: set<Priv>)
    requires Moves(Core(s), t, mv, issued) && s.stage.Authed?
    ensures mv.Quiet? && t == Core(s)
  {
  }

  /** A session that stays in the table for a whole run. */
  predicate Stays(st: Server, es: seq<Event>, l: PeerKey)
  {
    l in Run(st, es).sessions && (es != [] ==> Stays(st, es[..|es| - 1], l))
  }

  lemma {:induction false} LoginOutlivesRun(st: Server, es: seq<Event>, l: PeerKey)
    requires Inv(st) && RunPossible(st, es) && Stays(st, es, l)
    requires l in st.sessions && st.sessions[l].stage.Authed?
    ensures Inv(Run(st, es)) && Core(Run(st, es).sessions[l]) == Core(st.sessions[l])
  {
    if es != [] {
      var before := es[..|es| - 1];
      LoginOutlivesRun(st, before, l);
      hide Inv, Step, Possible;
      StepKeeps(Run(st, before), es[|es| - 1]);
      CoreStage(Run(st, before).sessions[l], st.sessions[l]);
      LoginIsPermanent(Run(st, before), es[|es| - 1], l);
    }
  }

  lemma CoreStage(s: Session, t: Session)
    requires Core(s) == Core(t)
    ensures s.stage == t.stage
  {
    assert Core(s).stage == Core(t).stage;
  }

  /** One step never removes a logged-in session but for its own ending, a departing
      frame at the sequence limit, or a newer login with the same public key. */
  lemma OnlyOwnOrSameKeyEnds(st: Server, e: Event, l: PeerKey)
    requires Inv(st) && Possible(st, e)
    requires l in st.sessions && st.sessions[l].stage.Authed? && l !in Step(st, e).sessions
    ensures Acting(st, e).Some?
    ensures Acting(st, e).value == l ||
            (e.Arrive? && e.key in st.sessions && exists t :: CarriedBy(st.sessions[e.key], t, e.frame) && t.cliPub == st.sessions[l].cliPub)
  {
    hide Inv, Step, CarriedBy;
    if e.Admit? {
      AdmitStep(st, e);
      AuthedIsHandshaked(st, l);
      AdmitSparesAuthenticated(st, e.key, e.env.now, e.env.victim, l);
    } else {
      var mv, t := StepEffect(st, e);
    }
  }

  lemma AuthedIsHandshaked(st: Server, l: PeerKey)
    requires Inv(st) && l in st.sessions && st.sessions[l].stage.Authed?
    ensures st.sessions[l].handshaked && st.sessions[l].authenticated
  {
    StageOf(st, l);
  }

  // ---- routing and addresses -----------------------------------------------------------------

  /** Routing by the index is a linear search of the table for the address. */
  lemma RouteIsSearch(st: Server, dst: nat)
    requires Inv(st)
    ensures forall k :: Route(st, dst) == Some(k) <==>
              k in st.sessions && st.sessions[k].authenticated && st.sessions[k].vip == dst
    ensures Route(st, dst).None? <==>
              forall k :: k in st.sessions && st.sessions[k].authenticated ==> st.sessions[k].vip != dst
  {
    forall k | k in st.sessions
      ensures st.sessions[k].authenticated <==> st.sessions[k].ipAssigned
    {
      StageOf(st, k);
    }
    hide StagesOk, CapsOk, EphemeralsOk, HistoryOk;
  }

  /** No two sessions share an address; each is a host address in use, never the
      gateway; and no address is in use without a session. */
  lemma AddressesAreExact(st: Server)
    requires Inv(st)
    ensures forall k, l :: k in st.sessions && l in st.sessions && k != l && st.sessions[k].ipAssigned && st.sessions[l].ipAssigned
              ==> st.sessions[k].vip != st.sessions[l].vip
    ensures forall k :: k in st.sessions && st.sessions[k].ipAssigned ==>
              st.pool.Host(st.sessions[k].vip) && st.sessions[k].vip != st.pool.gw
    ensures st.pool.used == set k | k in st.sessions && st.sessions[k].ipAssigned :: st.sessions[k].vip
  {
    hide StagesOk, CapsOk, EphemeralsOk, HistoryOk;
  }

  /** Releasing twice is releasing once, and frees exactly the session's address. */
  lemma ReleaseTwice(st: Server, k: PeerKey)
    requires Inv(st) && k in st.sessions
    ensures Release(Release(st, k), k) == Release(st, k)
    ensures Release(st, k).pool.used == st.pool.used - (if st.sessions[k].ipAssigned then {st.sessions[k].vip} else {})
  {
    ReleaseFields(st, k);
    assert st.pool.used - {} == st.pool.used;
    if st.sessions[k].ipAssigned {
      AssignedIsReal(st, k);
    }
    hide Inv;
  }

  /** After a release the address routes nowhere, and all others as before. */
  lemma ReleaseUnroutes(st: Server, k: PeerKey, dst: nat)
    requires Inv(st)
    ensures Route(Release(st, k), dst) == (if Route(st, dst) == Some(k) then None else Route(st, dst))
  {
    ReleaseFields(st, k);
    ReleaseKeeps(st, k);
    var u := Release(st, k);
    var r, r' := Route(st, dst), Route(u, dst);
    hide Inv, Release, Route;
    RouteIs(st, dst, r.GetOr(k));
    RouteIs(u, dst, r.GetOr(k));
    RouteIs(st, dst, r'.GetOr(k));
    RouteIs(u, dst, r'.GetOr(k));
  }

  lemma RouteIs(st: Server, dst: nat, k: PeerKey)
    requires Inv(st)
    ensures Route(st, dst) == Some(k) <==> k in st.sessions && st.sessions[k].authenticated && st.sessions[k].vip == dst
  {
    RouteIsSearch(st, dst);
  }

  lemma AssignedIsReal(st: Server, k: PeerKey)
    requires Inv(st) && k in st.sessions && st.sessions[k].ipAssigned
    ensures st.sessions[k].vip != 0
  {
  }

  // ---- what this says about any run -----------------------------------------------------------

  /** Nothing unsealed changes a logged-in session, or anything else. */
  lemma PlaintextChangesNothing(st: Server, k: PeerKey, f: Frame, env: Env)
    requires Inv(st) && k in st.sessions && EnvFresh(st, env)
    requires st.sessions[k].stage.Authed? && f.payload.Open?
    ensures HandleFramed(st, k, f, env) == st
  {
    hide Inv, HandleFramed, EnvFresh;
    var mv, t := FramedEffect(st, k, f, env);
  }

  /** Admission limits hold after any run. */
  lemma CapsOnEveryRun(st: Server, es: seq<Event>)
    requires Started(st) && RunPossible(st, es)
    ensures var u := Run(st, es);
            && |u.sessions| <= u.cfg.maxClients && |Pending(u)| <= MAX_PENDING && forall ip :: |FromIp(u, ip)| <= MAX_PER_IP
  {
    RunKeeps(st, es);
    hide RunPossible, Run, Started;
  }

  /** After any run: the three flags and the stage agree; a session with keys has no
      private key left and its keys are those of its own nonces and public values. */
  lemma StagesOnEveryRun(st: Server, es: seq<Event>, k: PeerKey)
    requires Started(st) && RunPossible(st, es) && k in Run(st, es).sessions
    ensures var s := Run(st, es).sessions[k];
            && (s.authenticated <==> s.stage.Authed?) && (s.handshaked <==> s.stage.Authed?)
            && (s.stage.KeysReady? || s.stage.Authed? ==>
                  s.encReady && s.dhPriv.None? && Derived(Tx, s).Some? && s.keyC2S == Derived(Tx, s) && s.keyS2C == Derived(Rx, s))
            && (s.stage.HelloSent? || s.stage.NoHandshake? ==> !s.encReady && s.keyC2S.None? && s.keyS2C.None?)
  {
    RunKeeps(st, es);
    StageOf(Run(st, es), k);
    hide RunPossible, Run, Started, Inv;
  }

  /** After any run a cached reply is the server's signature over the session's current
      nonces and public value. */
  lemma CachedReplyOnEveryRun(st: Server, es: seq<Event>, k: PeerKey)
    requires Started(st) && RunPossible(st, es) && k in Run(st, es).sessions && Run(st, es).sessions[k].hello.Some?
    ensures var u := Run(st, es);
            var s := u.sessions[k];
            && u.cfg.signKey.Some? && s.nonceC.Some? && s.nonceS.Some? && s.dhSrv.Some?
            && s.hello.value == ServerHello(s.nonceS.value, s.dhSrv.value,
                                            Signature(u.cfg.signKey.value, HelloText(s.nonceC.value, s.nonceS.value, s.dhSrv.value)))
  {
    RunKeeps(st, es);
    StageOf(Run(st, es), k);
    hide RunPossible, Run, Started, Inv, StageOk;
  }

  /** Each ephemeral key was turned into keys at most once, and every packet let into
      the tunnel came from the address of a login of its session. */
  lemma HistoryOnEveryRun(st: Server, es: seq<Event>)
    requires Started(st) && RunPossible(st, es)
    ensures var u := Run(st, es);
            && (forall i, j :: 0 <= i < j < |u.spent| ==> u.spent[i] != u.spent[j])
            && (forall i :: 0 <= i < |u.uplinks| ==> UplinkSound(u, u.uplinks[i]))
  {
    RunKeeps(st, es);
    InvParts(Run(st, es));
    hide RunPossible, Run, Started, Inv, StagesOk, VipOk, CapsOk;
    PastIsSound(Run(st, es));
  }

  lemma PastIsSound(u: Server)
    requires EphemeralsOk(u) && HistoryOk(u)
    ensures forall i, j :: 0 <= i < j < |u.spent| ==> u.spent[i] != u.spent[j]
    ensures forall i :: 0 <= i < |u.uplinks| ==> UplinkSound(u, u.uplinks[i])
  {
  }
}
