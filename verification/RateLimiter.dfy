/** The per-source token bucket in front of handshake recomputation
    (server/UDP/UDP.cpp, allow_handshake_recompute). Tokens are reals and times are
    positive milliseconds of a monotone clock. */
module RateLimiters {

  const RATE: real := 20.0
  const BURST: real := 40.0
  const IDLE_MS: int := 10000
  const TABLE_MAX: nat := 4096

  datatype Bucket = Bucket(tokens: real, lastMs: int)

  type Table = map<nat, Bucket>

  function Min(a: real, b: real): real
  {
    if a < b then a else b
  }

  function Refilled(b: Bucket, now: int): real
  {
    Min(b.tokens + (now - b.lastMs) as real / 1000.0 * RATE, BURST)
  }

  predicate Idle(b: Bucket, now: int)
  {
    now - b.lastMs > IDLE_MS
  }

  function Active(t: Table, now: int): Table
  {
    map ip | ip in t && !Idle(t[ip], now) :: t[ip]
  }

  /** The table after the size check that opens every call. */
  function Pruned(t: Table, now: int): Table
  {
    if |t| <= TABLE_MAX then t
    else if |Active(t, now)| > TABLE_MAX then map[]
    else Active(t, now)
  }

  /** Whether a call at this moment throws the whole table away. */
  predicate Clears(t: Table, now: int)
  {
    |t| > TABLE_MAX && |Active(t, now)| > TABLE_MAX
  }

  function Lookup(t: Table, ip: nat, now: int): Bucket
  {
    if ip in t then t[ip] else Bucket(BURST, now)
  }

  datatype Outcome = Outcome(granted: bool, table: Table)

  function Allow(t: Table, ip: nat, now: int): Outcome
  {
    var kept := Pruned(t, now);
    var tokens := Refilled(Lookup(kept, ip, now), now);
    if tokens < 1.0 then Outcome(false, kept[ip := Bucket(tokens, now)])
    else Outcome(true, kept[ip := Bucket(tokens - 1.0, now)])
  }

  /** Every bucket was last touched in the past and holds 0 to 40 tokens. */
  predicate Sound(t: Table, now: int)
  {
    forall ip :: ip in t ==> 0.0 <= t[ip].tokens <= BURST && 0 < t[ip].lastMs <= now
  }

  class RateLimiter {
    var m_hs_rl: Table

    constructor ()
      ensures m_hs_rl == map[]
    {
      m_hs_rl := map[];
    }

    /** Walk the table and drop the entries idle for more than ten seconds. */
    method DropIdle(now: int)
      modifies this
      ensures m_hs_rl == Active(old(m_hs_rl), now)
    {
      var todo := m_hs_rl.Keys;
      while todo != {}
        invariant todo <= m_hs_rl.Keys
        invariant m_hs_rl == map ip | ip in old(m_hs_rl) && (ip in todo || !Idle(old(m_hs_rl)[ip], now)) :: old(m_hs_rl)[ip]
        decreases todo
      {
        var ip :| ip in todo;
        todo := todo - {ip};
        if now - m_hs_rl[ip].lastMs > IDLE_MS {
          m_hs_rl := m_hs_rl - {ip};
        }
      }
    }

    method AllowHandshakeRecompute(ip: nat, now: int) returns (granted: bool)
      requires now > 0 && Sound(m_hs_rl, now)
      modifies this
      ensures Sound(m_hs_rl, now)
      ensures granted == Allow(old(m_hs_rl), ip, now).granted
      ensures m_hs_rl == Allow(old(m_hs_rl), ip, now).table
    {
      if |m_hs_rl| > TABLE_MAX {
        DropIdle(now);
        if |m_hs_rl| > TABLE_MAX {
          m_hs_rl := map[];
        }
      }
      assert m_hs_rl == Pruned(old(m_hs_rl), now);
      var b := if ip in m_hs_rl then m_hs_rl[ip] else Bucket(0.0, 0);
      if b.lastMs == 0 {
        b := Bucket(BURST, now);
      }
      var elapsed := (now - b.lastMs) as real / 1000.0;
      var tokens := b.tokens + elapsed * RATE;
      if tokens > BURST {
        tokens := BURST;
      }
      if tokens < 1.0 {
        m_hs_rl := m_hs_rl[ip := Bucket(tokens, now)];
        return false;
      }
      m_hs_rl := m_hs_rl[ip := Bucket(tokens - 1.0, now)];
      return true;
    }
  }

  // ---- what the table means -------------------------------------------------

  /** Tokens a source could spend now: the only thing the table is for. */
  function Level(t: Table, ip: nat, now: int): real
  {
    Refilled(Lookup(t, ip, now), now)
  }

  /** Forgetting idle sources changes nobody's level, now or later. */
  lemma PruningIsInvisible(t: Table, now: int, ip: nat, later: int)
    requires Sound(t, now) && now <= later && !Clears(t, now)
    ensures Level(Pruned(t, now), ip, later) == Level(t, ip, later)
  {
    if |t| > TABLE_MAX && ip in t && Idle(t[ip], now) {
      assert (later - t[ip].lastMs) as real / 1000.0 * RATE >= 200.0;
    }
  }

  lemma RefillNow(t: Table, ip: nat, now: int)
    requires ip in t && t[ip].lastMs == now && t[ip].tokens <= BURST
    ensures Level(t, ip, now) == t[ip].tokens
  {
    assert (now - t[ip].lastMs) as real / 1000.0 * RATE == 0.0;
  }

  /** One call: the decision is a test of the level, the caller pays one token if
      granted, and no other source notices. */
  lemma AllowByLevel(t: Table, ip: nat, now: int)
    requires now > 0 && Sound(t, now)
    ensures Sound(Allow(t, ip, now).table, now)
    ensures !Clears(t, now) ==>
              && (Allow(t, ip, now).granted <==> Level(t, ip, now) >= 1.0)
              && Level(Allow(t, ip, now).table, ip, now)
                 == Level(t, ip, now) - (if Allow(t, ip, now).granted then 1.0 else 0.0)
              && forall other, later :: other != ip && later >= now ==>
                   Level(Allow(t, ip, now).table, other, later) == Level(t, other, later)
  {
    if !Clears(t, now) {
      PruningIsInvisible(t, now, ip, now);
      RefillNow(Allow(t, ip, now).table, ip, now);
      forall other, later | other != ip && later >= now
        ensures Level(Allow(t, ip, now).table, other, later) == Level(t, other, later)
      {
        PruningIsInvisible(t, now, other, later);
      }
    }
  }

  /** Waiting adds at most 20 tokens a second and never takes any. */
  lemma LevelOverTime(t: Table, ip: nat, now: int, later: int)
    requires Sound(t, now) && now <= later
    ensures 0.0 <= Level(t, ip, now) <= BURST
    ensures Level(t, ip, now) <= Level(t, ip, later)
                              <= Level(t, ip, now) + (later - now) as real / 1000.0 * RATE
  {
    if ip in t {
      var b := t[ip];
      assert (later - b.lastMs) as real == (later - now) as real + (now - b.lastMs) as real;
      assert (later - now) as real >= 0.0 && (now - b.lastMs) as real >= 0.0;
    }
  }

  // ---- runs -------------------------------------------------------------------

  datatype Call = Call(ip: nat, now: int)

  predicate Timely(calls: seq<Call>, from: int)
  {
    && (forall i :: 0 <= i < |calls| ==> from <= calls[i].now)
    && (forall i, j :: 0 <= i < j < |calls| ==> calls[i].now <= calls[j].now)
  }

  /** No call of the run clears the table. */
  predicate NeverCleared(t: Table, calls: seq<Call>)
    decreases |calls|
  {
    calls == [] ||
    (!Clears(t, calls[0].now) && NeverCleared(Allow(t, calls[0].ip, calls[0].now).table, calls[1..]))
  }

  /** How many calls of one source were granted. */
  function Grants(t: Table, calls: seq<Call>, ip: nat): nat
    decreases |calls|
  {
    if calls == [] then 0
    else
      var o := Allow(t, calls[0].ip, calls[0].now);
      (if calls[0].ip == ip && o.granted then 1 else 0) + Grants(o.table, calls[1..], ip)
  }

  /** How many calls of the run clear the table. */
  function ClearCount(t: Table, calls: seq<Call>): nat
    decreases |calls|
  {
    if calls == [] then 0
    else
      (if Clears(t, calls[0].now) then 1 else 0) + ClearCount(Allow(t, calls[0].ip, calls[0].now).table, calls[1..])
  }

  /** A call that clears the table leaves every other source full, and its own one
      token short. */
  lemma AfterClearing(t: Table, c: Call, ip: nat)
    requires c.now > 0 && Clears(t, c.now)
    ensures Allow(t, c.ip, c.now).granted && Sound(Allow(t, c.ip, c.now).table, c.now)
    ensures Level(Allow(t, c.ip, c.now).table, ip, c.now) == if ip == c.ip then BURST - 1.0 else BURST
  {
    var u := Allow(t, c.ip, c.now).table;
    assert Pruned(t, c.now) == map[];
    RefillNow(u, c.ip, c.now);
  }

  /** One call: what it grants a source and leaves it is at most its level, or a full
      bucket when the table was cleared. */
  lemma OneCall(t: Table, c: Call, ip: nat)
    requires c.now > 0 && Sound(t, c.now)
    ensures var o := Allow(t, c.ip, c.now);
            && Sound(o.table, c.now)
            && (if c.ip == ip && o.granted then 1.0 else 0.0) + Level(o.table, ip, c.now)
               <= (if Clears(t, c.now) then BURST else Level(t, ip, c.now))
  {
    AllowByLevel(t, c.ip, c.now);
    if Clears(t, c.now) {
      AfterClearing(t, c, ip);
    } else if c.ip != ip {
      assert Level(Allow(t, c.ip, c.now).table, ip, c.now) == Level(t, ip, c.now);
    }
    hide Level, Allow, Clears;
  }

  lemma {:induction false} GrantsWithinLevel(t: Table, calls: seq<Call>, ip: nat, from: int, to: int)
    requires from > 0 && Sound(t, from) && Timely(calls, from)
    requires from <= to && forall i :: 0 <= i < |calls| ==> calls[i].now <= to
    ensures Grants(t, calls, ip) as real
            <= Level(t, ip, from) + (to - from) as real / 1000.0 * RATE + BURST * ClearCount(t, calls) as real
    decreases |calls|
  {
    hide Level, Allow, Clears;
    LevelOverTime(t, ip, from, to);
    if calls != [] {
      var c := calls[0];
      assert Sound(t, c.now);
      var o := Allow(t, c.ip, c.now);
      OneCall(t, c, ip);
      LevelOverTime(t, ip, from, c.now);
      GrantsWithinLevel(o.table, calls[1..], ip, c.now, to);
      assert (to - from) as real == (to - c.now) as real + (c.now - from) as real;
      assert ClearCount(t, calls) == (if Clears(t, c.now) then 1 else 0) + ClearCount(o.table, calls[1..]);
    }
  }

  /** Over any stretch of a run, d milliseconds long, one source gets at most
      40 + 20 d / 1000 grants, and 40 more for each time the table was cleared. */
  lemma WindowBound(t: Table, calls: seq<Call>, ip: nat)
    requires calls != [] && calls[0].now > 0
    requires Sound(t, calls[0].now) && Timely(calls, calls[0].now)
    ensures Grants(t, calls, ip) as real
            <= 40.0 * (1 + ClearCount(t, calls)) as real + (calls[|calls| - 1].now - calls[0].now) as real / 1000.0 * 20.0
  {
    GrantsWithinLevel(t, calls, ip, calls[0].now, calls[|calls| - 1].now);
    LevelOverTime(t, ip, calls[0].now, calls[0].now);
  }

  /** Two tables that give everyone the same level decide a whole run alike, so
      pruning idle entries beforehand changes no decision of the run. */
  lemma {:induction false} SameLevelsSameRun(t: Table, u: Table, calls: seq<Call>, ip: nat, from: int)
    requires from > 0 && Sound(t, from) && Sound(u, from) && Timely(calls, from)
    requires NeverCleared(t, calls) && NeverCleared(u, calls)
    requires forall who, later :: later >= from ==> Level(t, who, later) == Level(u, who, later)
    ensures Grants(t, calls, ip) == Grants(u, calls, ip)
    decreases |calls|
  {
    if calls != [] {
      var c := calls[0];
      hide Allow, Clears;
      AllowByLevel(t, c.ip, c.now);
      AllowByLevel(u, c.ip, c.now);
      var tt, uu := Allow(t, c.ip, c.now).table, Allow(u, c.ip, c.now).table;
      forall who, later | later >= c.now
        ensures Level(tt, who, later) == Level(uu, who, later)
      {
        assert Level(t, c.ip, c.now) == Level(u, c.ip, c.now);
        if who == c.ip {
          LevelFromNow(tt, who, c.now, later);
          LevelFromNow(uu, who, c.now, later);
        }
      }
      SameLevelsSameRun(tt, uu, calls[1..], ip, c.now);
    }
  }

  /** A level determines its own future. */
  lemma LevelFromNow(t: Table, ip: nat, now: int, later: int)
    requires Sound(t, now) && now <= later
    ensures Level(t, ip, later) == Min(Level(t, ip, now) + (later - now) as real / 1000.0 * RATE, BURST)
  {
    if ip in t {
      var b := t[ip];
      assert (later - b.lastMs) as real == (later - now) as real + (now - b.lastMs) as real;
      assert (later - now) as real >= 0.0;
    }
  }

  lemma PruningChangesNoRun(t: Table, calls: seq<Call>, ip: nat, now: int)
    requires now > 0 && Sound(t, now) && Timely(calls, now) && !Clears(t, now)
    requires NeverCleared(t, calls) && NeverCleared(Pruned(t, now), calls)
    ensures Grants(Pruned(t, now), calls, ip) == Grants(t, calls, ip)
  {
    forall who, later | later >= now
      ensures Level(Pruned(t, now), who, later) == Level(t, who, later)
    {
      PruningIsInvisible(t, now, who, later);
    }
    SameLevelsSameRun(Pruned(t, now), t, calls, ip, now);
  }
}
