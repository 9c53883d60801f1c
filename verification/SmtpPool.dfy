/**
 * The outbound SMTP connection pool. Slots are anonymous tokens in two kinds of
 * channels, one for the whole pool and one per destination key; a goroutine in
 * `get` takes and returns them without the mutex, while sessions are closed
 * under it. The model interleaves all of these at the granularity of single
 * channel operations and mutex sections.
 */
module SmtpPool {
  import opened Common

  type Key = string
  type Sid = nat
  type Tid = nat

  datatype Config = Config(maxConnections: nat, maxPerKey: nat, maxIdle: nat, maxIdlePerKey: nat,
                           idleTimeout: nat, maxLifetime: nat, maxDeliveries: nat)

  /** Out: with a caller. Doomed: about to be closed under the mutex. Half: its key token is already returned. */
  datatype Status = Out | Idle | Doomed | Half

  datatype Session = Session(key: Key, createdAt: nat, idleSince: nat, deliveries: nat, status: Status)

  /** Where a goroutine is inside `get`. */
  datatype Call =
    | Start(key: Key)
    | Trying(key: Key)
    | HasKey(key: Key)
    | Dialing(key: Key)
    | ReturningKey(key: Key)
    | DialFailed(key: Key)
    | Waiting(key: Key)

  predicate HoldsKey(c: Call, k: Key) {
    c.key == k && (c.HasKey? || c.Dialing? || c.ReturningKey? || c.DialFailed?)
  }

  /** Tokens are counted by the channels' lengths; a session exists while it holds at least one. */
  datatype Pool = Pool(
    closed: bool,
    idle: map<Key, seq<Sid>>,
    keys: map<Key, int>,
    total: int,
    sessions: map<Sid, Session>,
    calls: map<Tid, Call>)

  datatype Event =
    | Enter(t: Tid, key: Key)
    | Look(t: Tid, now: nat)
    | TakeKey(t: Tid)
    | TakeTotal(t: Tid)
    | ReturnKey(t: Tid)
    | DialOk(t: Tid, s: Sid, now: nat)
    | DialFail(t: Tid)
    | DialFailKey(t: Tid)
    | Wake(t: Tid)
    | Cancel(t: Tid)
    | Put(s: Sid, reusable: bool, now: nat)
    | CloseKey(s: Sid)
    | CloseTotal(s: Sid)
    | CloseAll

  predicate Reusable(cfg: Config, s: Session, now: nat) {
    now - s.idleSince <= cfg.idleTimeout && now - s.createdAt <= cfg.maxLifetime && s.deliveries < cfg.maxDeliveries
  }

  function IdleList(p: Pool, k: Key): seq<Sid> {
    if k in p.idle then p.idle[k] else []
  }

  function WithStatus(p: Pool, st: Status): set<Sid> {
    set s | s in p.sessions && p.sessions[s].status == st
  }

  /** Nobody is closing sessions: the mutex can be taken. */
  predicate MutexFree(p: Pool) {
    WithStatus(p, Doomed) == {} && WithStatus(p, Half) == {}
  }

  predicate Enabled(p: Pool, e: Event) {
    match e
    case Enter(t, _) => t !in p.calls
    case Look(t, _) => t in p.calls && p.calls[t].Start? && MutexFree(p)
    case TakeKey(t) => t in p.calls && p.calls[t].Trying?
    case TakeTotal(t) => t in p.calls && p.calls[t].HasKey?
    case ReturnKey(t) => t in p.calls && p.calls[t].ReturningKey?
    case DialOk(t, s, _) => t in p.calls && p.calls[t].Dialing? && s !in p.sessions
    case DialFail(t) => t in p.calls && p.calls[t].Dialing?
    case DialFailKey(t) => t in p.calls && p.calls[t].DialFailed?
    case Wake(t) => t in p.calls && p.calls[t].Waiting?
    case Cancel(t) => t in p.calls && p.calls[t].Waiting?
    case Put(s, _, _) => s in p.sessions && p.sessions[s].status == Out && MutexFree(p)
    case CloseKey(s) => s in p.sessions && p.sessions[s].status == Doomed
    case CloseTotal(s) => s in p.sessions && p.sessions[s].status == Half
    case CloseAll => MutexFree(p)
  }

  function SetStatus(p: Pool, s: Sid, st: Status): map<Sid, Session>
    requires s in p.sessions
  {
    p.sessions[s := p.sessions[s].(status := st)]
  }

  function LookNext(cfg: Config, p: Pool, t: Tid, key: Key, now: nat): Pool {
    var list := IdleList(p, key);
    if p.closed then p.(calls := p.calls - {t})
    else if list != [] && list[|list| - 1] in p.sessions then
      var s := list[|list| - 1];
      var popped := p.idle[key := list[..|list| - 1]];
      if Reusable(cfg, p.sessions[s], now)
      then p.(idle := popped, sessions := SetStatus(p, s, Out), calls := p.calls - {t})
      else p.(idle := popped, sessions := SetStatus(p, s, Doomed))
    else p.(keys := if key in p.keys then p.keys else p.keys[key := 0], calls := p.calls[t := Trying(key)])
  }

  /** put closes the session unless there is room to keep it idle. */
  predicate KeepsIdle(cfg: Config, p: Pool, s: Session, reusable: bool, now: nat) {
    reusable && !p.closed && now - s.createdAt < cfg.maxLifetime && s.deliveries < cfg.maxDeliveries &&
    |IdleList(p, s.key)| < cfg.maxIdlePerKey && |WithStatus(p, Idle)| < cfg.maxIdle
  }

  function PutNext(cfg: Config, p: Pool, s: Sid, reusable: bool, now: nat): Pool
    requires s in p.sessions
  {
    var used := p.sessions[s].(deliveries := p.sessions[s].deliveries + 1);
    if KeepsIdle(cfg, p, used, reusable, now) then
      p.(idle := p.idle[used.key := IdleList(p, used.key) + [s]],
         sessions := p.sessions[s := used.(idleSince := now, status := Idle)])
    else p.(sessions := p.sessions[s := used.(status := Doomed)])
  }

  function CloseAllNext(p: Pool): Pool {
    p.(closed := true, idle := map[],
       sessions := map s | s in p.sessions ::
         if p.sessions[s].status == Idle then p.sessions[s].(status := Doomed) else p.sessions[s])
  }

  function Tokens(p: Pool, k: Key): int { if k in p.keys then p.keys[k] else 0 }

  function AddKey(p: Pool, k: Key, n: int): map<Key, int> { p.keys[k := Tokens(p, k) + n] }

  function Next(cfg: Config, p: Pool, e: Event): Pool
    requires Enabled(p, e)
  {
    match e
    case Enter(t, key) => p.(calls := p.calls[t := Start(key)])
    case Look(t, now) => LookNext(cfg, p, t, p.calls[t].key, now)
    case TakeKey(t) =>
      var k := p.calls[t].key;
      if Tokens(p, k) < cfg.maxPerKey then p.(keys := AddKey(p, k, 1), calls := p.calls[t := HasKey(k)])
      else p.(calls := p.calls[t := Waiting(k)])
    case TakeTotal(t) =>
      var k := p.calls[t].key;
      if p.total < cfg.maxConnections then p.(total := p.total + 1, calls := p.calls[t := Dialing(k)])
      else p.(calls := p.calls[t := ReturningKey(k)])
    case ReturnKey(t) =>
      var k := p.calls[t].key;
      p.(keys := AddKey(p, k, -1), calls := p.calls[t := Waiting(k)])
    case DialOk(t, s, now) =>
      p.(sessions := p.sessions[s := Session(p.calls[t].key, now, 0, 0, Out)], calls := p.calls - {t})
    case DialFail(t) => p.(total := p.total - 1, calls := p.calls[t := DialFailed(p.calls[t].key)])
    case DialFailKey(t) => p.(keys := AddKey(p, p.calls[t].key, -1), calls := p.calls - {t})
    case Wake(t) => p.(calls := p.calls[t := Start(p.calls[t].key)])
    case Cancel(t) => p.(calls := p.calls - {t})
    case Put(s, reusable, now) => PutNext(cfg, p, s, reusable, now)
    case CloseKey(s) => p.(keys := AddKey(p, p.sessions[s].key, -1), sessions := SetStatus(p, s, Half))
    case CloseTotal(s) => p.(total := p.total - 1, sessions := p.sessions - {s})
    case CloseAll => CloseAllNext(p)
  }

  // ----- Token accounting --------------------------------------------------

  function SessionsOn(sessions: map<Sid, Session>, k: Key): set<Sid> {
    set s | s in sessions && sessions[s].key == k && sessions[s].status != Half
  }

  function CallsOn(calls: map<Tid, Call>, k: Key): set<Tid> {
    set t | t in calls && HoldsKey(calls[t], k)
  }

  function Dials(calls: map<Tid, Call>): set<Tid> {
    set t | t in calls && calls[t].Dialing?
  }

  /** Every token in a channel has exactly one holder: an open session or a goroutine inside `get`. */
  ghost predicate TokensHeld(p: Pool) {
    && p.total == |p.sessions| + |Dials(p.calls)|
    && forall k :: Tokens(p, k) == |SessionsOn(p.sessions, k)| + |CallsOn(p.calls, k)|
  }

  ghost predicate WithinLimits(cfg: Config, p: Pool) {
    && p.total <= cfg.maxConnections
    && (forall k :: Tokens(p, k) <= cfg.maxPerKey)
    && (forall k :: |IdleList(p, k)| <= cfg.maxIdlePerKey)
    && |WithStatus(p, Idle)| <= cfg.maxIdle
  }

  /** The list names every session under key k with the given status, each once. */
  predicate ListExact(sessions: map<Sid, Session>, list: seq<Sid>, k: Key, st: Status) {
    && (forall i :: 0 <= i < |list| ==>
        list[i] in sessions && sessions[list[i]].status == st && sessions[list[i]].key == k)
    && (forall i, j :: 0 <= i < j < |list| ==> list[i] != list[j])
    && (forall s :: s in sessions && sessions[s].status == st && sessions[s].key == k ==> s in list)
  }

  /** Idle lists hold exactly the idle sessions, each once and under its own key. */
  ghost predicate IdleListsExact(p: Pool) {
    forall k :: ListExact(p.sessions, IdleList(p, k), k, Idle)
  }

  ghost predicate Inv(cfg: Config, p: Pool) {
    && TokensHeld(p) && WithinLimits(cfg, p) && IdleListsExact(p)
    && (p.closed ==> WithStatus(p, Idle) == {})
  }

  function Bit(b: bool): int { if b then 1 else 0 }

  /** Two sets that differ at most in one element. */
  lemma Toggle(a: set<nat>, b: set<nat>, x: nat)
    requires a - {x} == b - {x}
    ensures |b| == |a| - Bit(x in a) + Bit(x in b)
  {
    assert |a - {x}| == |a| - Bit(x in a);
    assert |b - {x}| == |b| - Bit(x in b);
  }

  /** How the holders change when at most goroutine t and session s do. */
  predicate SameBut(p: Pool, q: Pool, t: Tid, s: Sid) {
    && p.calls - {t} == q.calls - {t}
    && p.sessions - {s} == q.sessions - {s}
  }

  function CallHolds(p: Pool, t: Tid, k: Key): int { Bit(t in p.calls && HoldsKey(p.calls[t], k)) }
  function CallDials(p: Pool, t: Tid): int { Bit(t in p.calls && p.calls[t].Dialing?) }

  function SessionHolds(p: Pool, s: Sid, k: Key): int {
    Bit(s in p.sessions && p.sessions[s].key == k && p.sessions[s].status != Half)
  }

  function SessionOpen(p: Pool, s: Sid): int { Bit(s in p.sessions) }

  lemma CallsChange(p: Pool, q: Pool, t: Tid, k: Key)
    requires p.calls - {t} == q.calls - {t}
    ensures |CallsOn(q.calls, k)| == |CallsOn(p.calls, k)| - CallHolds(p, t, k) + CallHolds(q, t, k)
  {
    SameElsewhere(p.calls, q.calls, t);
    assert CallsOn(p.calls, k) - {t} == CallsOn(q.calls, k) - {t};
    Toggle(CallsOn(p.calls, k), CallsOn(q.calls, k), t);
  }

  lemma DialsChange(p: Pool, q: Pool, t: Tid)
    requires p.calls - {t} == q.calls - {t}
    ensures |Dials(q.calls)| == |Dials(p.calls)| - CallDials(p, t) + CallDials(q, t)
  {
    SameElsewhere(p.calls, q.calls, t);
    assert Dials(p.calls) - {t} == Dials(q.calls) - {t};
    Toggle(Dials(p.calls), Dials(q.calls), t);
  }

  lemma SameElsewhere<V>(a: map<nat, V>, b: map<nat, V>, t: nat)
    requires a - {t} == b - {t}
    ensures forall u :: u != t ==> (u in a <==> u in b) && (u in a ==> a[u] == b[u])
  {
    forall u | u != t ensures (u in a <==> u in b) && (u in a ==> a[u] == b[u]) {
      assert u in a <==> u in a - {t};
      assert u in b <==> u in b - {t};
      if u in a { assert (a - {t})[u] == (b - {t})[u]; }
    }
  }

  lemma SessionsChange(p: Pool, q: Pool, s: Sid, k: Key)
    requires p.sessions - {s} == q.sessions - {s}
    ensures |SessionsOn(q.sessions, k)| == |SessionsOn(p.sessions, k)| - SessionHolds(p, s, k) + SessionHolds(q, s, k)
  {
    SameElsewhere(p.sessions, q.sessions, s);
    assert SessionsOn(p.sessions, k) - {s} == SessionsOn(q.sessions, k) - {s};
    Toggle(SessionsOn(p.sessions, k), SessionsOn(q.sessions, k), s);
  }

  lemma OpenChange(p: Pool, q: Pool, s: Sid)
    requires p.sessions - {s} == q.sessions - {s}
    ensures |q.sessions| == |p.sessions| - SessionOpen(p, s) + SessionOpen(q, s)
  {
    SameElsewhere(p.sessions, q.sessions, s);
    assert p.sessions.Keys - {s} == q.sessions.Keys - {s};
    Toggle(p.sessions.Keys, q.sessions.Keys, s);
    assert |p.sessions.Keys| == |p.sessions| && |q.sessions.Keys| == |q.sessions|;
  }

  /** Tokens change exactly as the holdings of goroutine t and session s do. */
  ghost predicate Balanced(p: Pool, q: Pool, t: Tid, s: Sid) {
    && SameBut(p, q, t, s)
    && q.total - p.total == CallDials(q, t) - CallDials(p, t) + SessionOpen(q, s) - SessionOpen(p, s)
    && forall k ::
      Tokens(q, k) ==
      Tokens(p, k) + CallHolds(q, t, k) - CallHolds(p, t, k) + SessionHolds(q, s, k) - SessionHolds(p, s, k)
  }

  lemma HoldersChange(p: Pool, q: Pool, t: Tid, s: Sid)
    requires TokensHeld(p) && Balanced(p, q, t, s)
    ensures TokensHeld(q)
  {
    DialsChange(p, q, t);
    OpenChange(p, q, s);
    forall k ensures Tokens(q, k) == |SessionsOn(q.sessions, k)| + |CallsOn(q.calls, k)| {
      CallsChange(p, q, t, k);
      SessionsChange(p, q, s, k);
      assert Tokens(p, k) == |SessionsOn(p.sessions, k)| + |CallsOn(p.calls, k)|;
    }
  }

  lemma TakeKeyBalanced(cfg: Config, p: Pool, e: Event)
    requires Enabled(p, e) && e.TakeKey?
    ensures Balanced(p, Next(cfg, p, e), e.t, 0)
  {
    var q := Next(cfg, p, e);
    assert SameBut(p, q, e.t, 0);
    forall k ensures Tokens(q, k) == Tokens(p, k) + CallHolds(q, e.t, k) - CallHolds(p, e.t, k) { }
  }

  lemma TakeTotalBalanced(cfg: Config, p: Pool, e: Event)
    requires Enabled(p, e) && e.TakeTotal?
    ensures Balanced(p, Next(cfg, p, e), e.t, 0)
  {
    assert SameBut(p, Next(cfg, p, e), e.t, 0);
  }

  lemma ReturnBalanced(cfg: Config, p: Pool, e: Event)
    requires Enabled(p, e) && (e.ReturnKey? || e.DialFail? || e.DialFailKey?)
    ensures Balanced(p, Next(cfg, p, e), e.t, 0)
  {
    assert SameBut(p, Next(cfg, p, e), e.t, 0);
  }

  lemma WaitBalanced(cfg: Config, p: Pool, e: Event)
    requires Enabled(p, e) && (e.Enter? || e.Wake? || e.Cancel?)
    ensures Balanced(p, Next(cfg, p, e), e.t, 0)
  {
    assert SameBut(p, Next(cfg, p, e), e.t, 0);
  }

  lemma LookBalanced(cfg: Config, p: Pool, t: Tid, now: nat)
    requires Enabled(p, Look(t, now)) && IdleListsExact(p)
    ensures exists s :: Balanced(p, Next(cfg, p, Look(t, now)), t, s)
  {
    var key := p.calls[t].key;
    var q, list := Next(cfg, p, Look(t, now)), IdleList(p, key);
    if !p.closed && list != [] {
      var s := list[|list| - 1];
      assert ListExact(p.sessions, list, key, Idle);
      assert SameBut(p, q, t, s);
      assert Balanced(p, q, t, s);
    } else {
      assert SameBut(p, q, t, 0);
      assert Balanced(p, q, t, 0);
    }
  }

  lemma PutBalanced(cfg: Config, p: Pool, e: Event)
    requires Enabled(p, e) && e.Put?
    ensures Balanced(p, Next(cfg, p, e), 0, e.s)
  {
    assert SameBut(p, Next(cfg, p, e), 0, e.s);
  }

  lemma CloseKeyBalanced(cfg: Config, p: Pool, e: Event)
    requires Enabled(p, e) && e.CloseKey?
    ensures Balanced(p, Next(cfg, p, e), 0, e.s)
  {
    assert SameBut(p, Next(cfg, p, e), 0, e.s);
  }

  lemma CloseTotalBalanced(cfg: Config, p: Pool, e: Event)
    requires Enabled(p, e) && e.CloseTotal?
    ensures Balanced(p, Next(cfg, p, e), 0, e.s)
  {
    assert SameBut(p, Next(cfg, p, e), 0, e.s);
  }

  lemma DialOkBalanced(cfg: Config, p: Pool, t: Tid, s: Sid, now: nat)
    requires Enabled(p, DialOk(t, s, now))
    ensures Balanced(p, Next(cfg, p, DialOk(t, s, now)), t, s)
  {
    assert SameBut(p, Next(cfg, p, DialOk(t, s, now)), t, s);
  }

  lemma CloseAllHoldsTokens(p: Pool)
    requires TokensHeld(p)
    ensures TokensHeld(CloseAllNext(p))
  {
    var q := CloseAllNext(p);
    assert q.sessions.Keys == p.sessions.Keys;
    forall k ensures Tokens(q, k) == |SessionsOn(q.sessions, k)| + |CallsOn(q.calls, k)| {
      assert SessionsOn(q.sessions, k) == SessionsOn(p.sessions, k);
    }
  }

  /** Each event moves tokens together with their holders. */
  lemma StepHoldsTokens(cfg: Config, p: Pool, e: Event)
    requires TokensHeld(p) && IdleListsExact(p) && Enabled(p, e)
    ensures TokensHeld(Next(cfg, p, e))
  {
    var q := Next(cfg, p, e);
    if e.CloseAll? {
      CloseAllHoldsTokens(p);
    } else {
      StepBalanced(cfg, p, e);
      var t, s :| Balanced(p, q, t, s);
      HoldersChange(p, q, t, s);
    }
  }

  lemma StepBalanced(cfg: Config, p: Pool, e: Event)
    requires IdleListsExact(p) && Enabled(p, e) && !e.CloseAll?
    ensures exists t, s :: Balanced(p, Next(cfg, p, e), t, s)
  {
    if e.Put? {
      PutBalanced(cfg, p, e);
    } else if e.CloseKey? {
      CloseKeyBalanced(cfg, p, e);
    } else if e.CloseTotal? {
      CloseTotalBalanced(cfg, p, e);
    } else if e.Look? {
      LookBalanced(cfg, p, e.t, e.now);
    } else if e.DialOk? {
      DialOkBalanced(cfg, p, e.t, e.s, e.now);
    } else if e.TakeKey? {
      TakeKeyBalanced(cfg, p, e);
    } else if e.TakeTotal? {
      TakeTotalBalanced(cfg, p, e);
    } else if e.ReturnKey? || e.DialFail? || e.DialFailKey? {
      ReturnBalanced(cfg, p, e);
    } else {
      WaitBalanced(cfg, p, e);
    }
  }

  // ----- Limits and idle lists ---------------------------------------------

  /** Idle sessions after a step: none is new, except the one a put kept. */
  lemma IdleSetStep(cfg: Config, p: Pool, e: Event)
    requires Enabled(p, e)
    ensures
      var q := Next(cfg, p, e);
      if e.Put? && q.sessions[e.s].status == Idle
      then WithStatus(q, Idle) == WithStatus(p, Idle) + {e.s} && |WithStatus(p, Idle)| < cfg.maxIdle
      else WithStatus(q, Idle) <= WithStatus(p, Idle)
  {
  }

  lemma IdleLengthStep(cfg: Config, p: Pool, e: Event, k: Key)
    requires Enabled(p, e) && |IdleList(p, k)| <= cfg.maxIdlePerKey
    ensures |IdleList(Next(cfg, p, e), k)| <= cfg.maxIdlePerKey
  {
  }

  lemma TokensStep(cfg: Config, p: Pool, e: Event, k: Key)
    requires Enabled(p, e) && Tokens(p, k) <= cfg.maxPerKey
    ensures Tokens(Next(cfg, p, e), k) <= cfg.maxPerKey
  {
  }

  lemma StepWithinLimits(cfg: Config, p: Pool, e: Event)
    requires WithinLimits(cfg, p) && Enabled(p, e)
    ensures WithinLimits(cfg, Next(cfg, p, e))
  {
    var q := Next(cfg, p, e);
    forall k ensures Tokens(q, k) <= cfg.maxPerKey { TokensStep(cfg, p, e, k); }
    forall k ensures |IdleList(q, k)| <= cfg.maxIdlePerKey { IdleLengthStep(cfg, p, e, k); }
    IdleSetStep(cfg, p, e);
    SubsetSmaller(WithStatus(q, Idle), WithStatus(p, Idle), if e.Put? then e.s else 0);
  }

  lemma SubsetSmaller(a: set<Sid>, b: set<Sid>, x: Sid)
    ensures a <= b ==> |a| <= |b|
    ensures a == b + {x} ==> |a| <= |b| + 1
  {
    if a <= b { assert b == a + (b - a); }
  }

  /** Only a look at the pool, a put and Close touch idle lists or idle sessions. */
  lemma StepIdleExact(cfg: Config, p: Pool, e: Event)
    requires IdleListsExact(p) && Enabled(p, e)
    ensures IdleListsExact(Next(cfg, p, e))
  {
    if e.Look? {
      LookIdleExact(cfg, p, e.t, e.now);
    } else if e.Put? {
      PutIdleExact(cfg, p, e.s, e.reusable, e.now);
    } else {
      OthersIdleExact(cfg, p, e);
    }
  }

  lemma OthersIdleExact(cfg: Config, p: Pool, e: Event)
    requires IdleListsExact(p) && Enabled(p, e) && !e.Look? && !e.Put?
    ensures IdleListsExact(Next(cfg, p, e))
  {
    var q := Next(cfg, p, e);
    if !e.CloseAll? {
      SameIdleSessions(cfg, p, e);
      forall k ensures ListExact(q.sessions, IdleList(q, k), k, Idle) {
        assert IdleList(q, k) == IdleList(p, k) && ListExact(p.sessions, IdleList(p, k), k, Idle);
      }
    }
  }

  lemma SameIdleSessions(cfg: Config, p: Pool, e: Event)
    requires Enabled(p, e) && !e.Look? && !e.Put? && !e.CloseAll?
    ensures Next(cfg, p, e).idle == p.idle
    ensures
      var q := Next(cfg, p, e);
      forall s :: (s in q.sessions && q.sessions[s].status == Idle) ==
        (s in p.sessions && p.sessions[s].status == Idle) &&
        (s in p.sessions && p.sessions[s].status == Idle ==> q.sessions[s] == p.sessions[s])
  {
    var q := Next(cfg, p, e);
    if e.DialOk? {
      assert q.sessions == p.sessions[e.s := q.sessions[e.s]] && q.sessions[e.s].status == Out;
    } else if e.CloseKey? {
      assert q.sessions == p.sessions[e.s := p.sessions[e.s].(status := Half)];
    } else if e.CloseTotal? {
      assert q.sessions == p.sessions - {e.s};
    } else {
      assert q.sessions == p.sessions;
    }
  }

  lemma LookIdleExact(cfg: Config, p: Pool, t: Tid, now: nat)
    requires IdleListsExact(p) && Enabled(p, Look(t, now))
    ensures IdleListsExact(Next(cfg, p, Look(t, now)))
  {
    var key := p.calls[t].key;
    var q, list := Next(cfg, p, Look(t, now)), IdleList(p, key);
    assert ListExact(p.sessions, list, key, Idle);
    if !p.closed && list != [] {
      var s := list[|list| - 1];
      var status := if Reusable(cfg, p.sessions[s], now) then Out else Doomed;
      assert q.sessions == p.sessions[s := p.sessions[s].(status := status)];
      forall k ensures ListExact(q.sessions, IdleList(q, k), k, Idle) {
        assert ListExact(p.sessions, IdleList(p, k), k, Idle);
        assert IdleList(q, k) == if k == key then list[..|list| - 1] else IdleList(p, k);
        PopKeepsExact(p.sessions, list, key, status, IdleList(p, k), k);
      }
    } else {
      assert q.sessions == p.sessions && forall k :: IdleList(q, k) == IdleList(p, k);
    }
  }

  /** Taking the last session of one list out of the idle ones keeps every list exact. */
  lemma PopKeepsExact(sessions: map<Sid, Session>, list: seq<Sid>, key: Key, status: Status, other: seq<Sid>, k: Key)
    requires ListExact(sessions, list, key, Idle) && ListExact(sessions, other, k, Idle) && list != [] && status != Idle
    requires k == key ==> other == list
    ensures
      var s := list[|list| - 1];
      ListExact(sessions[s := sessions[s].(status := status)], if k == key then list[..|list| - 1] else other, k, Idle)
  {
  }

  lemma PutIdleExact(cfg: Config, p: Pool, s: Sid, reusable: bool, now: nat)
    requires IdleListsExact(p) && Enabled(p, Put(s, reusable, now))
    ensures IdleListsExact(Next(cfg, p, Put(s, reusable, now)))
  {
    var q, key := Next(cfg, p, Put(s, reusable, now)), p.sessions[s].key;
    forall k ensures ListExact(q.sessions, IdleList(q, k), k, Idle) {
      assert ListExact(p.sessions, IdleList(p, k), k, Idle);
      assert IdleList(q, k) == if q.sessions[s].status == Idle && k == key then IdleList(p, k) + [s]
        else IdleList(p, k);
    }
  }

  lemma ClosedStaysIdleFree(cfg: Config, p: Pool, e: Event)
    requires Enabled(p, e) && (p.closed ==> WithStatus(p, Idle) == {})
    ensures p.closed ==> Next(cfg, p, e).closed
    ensures Next(cfg, p, e).closed ==> WithStatus(Next(cfg, p, e), Idle) == {}
  {
    IdleSetStep(cfg, p, e);
  }

  lemma StepKeepsInvariant(cfg: Config, p: Pool, e: Event)
    requires Inv(cfg, p) && Enabled(p, e)
    ensures Inv(cfg, Next(cfg, p, e))
  {
    StepHoldsTokens(cfg, p, e);
    StepWithinLimits(cfg, p, e);
    StepIdleExact(cfg, p, e);
    ClosedStaysIdleFree(cfg, p, e);
  }

  // ----- Whole runs --------------------------------------------------------

  function Empty(): Pool { Pool(false, map[], map[], 0, map[], map[]) }

  ghost predicate RunEnabled(cfg: Config, p: Pool, es: seq<Event>)
    decreases |es|
  {
    es == [] || (Enabled(p, es[0]) && RunEnabled(cfg, Next(cfg, p, es[0]), es[1..]))
  }

  ghost function RunAll(cfg: Config, p: Pool, es: seq<Event>): Pool
    requires RunEnabled(cfg, p, es)
    decreases |es|
  {
    if es == [] then p else RunAll(cfg, Next(cfg, p, es[0]), es[1..])
  }

  lemma {:induction false} RunKeepsInvariant(cfg: Config, p: Pool, es: seq<Event>)
    requires Inv(cfg, p) && RunEnabled(cfg, p, es)
    ensures Inv(cfg, RunAll(cfg, p, es))
    ensures p.closed ==> RunAll(cfg, p, es).closed
    decreases |es|
  {
    if es != [] {
      StepKeepsInvariant(cfg, p, es[0]);
      ClosedStaysIdleFree(cfg, p, es[0]);
      RunKeepsInvariant(cfg, Next(cfg, p, es[0]), es[1..]);
    }
  }

  /** Under every interleaving from an empty pool. */
  lemma InvariantOnEveryRun(cfg: Config, es: seq<Event>)
    requires RunEnabled(cfg, Empty(), es)
    ensures Inv(cfg, RunAll(cfg, Empty(), es))
  {
    EmptyInv(cfg);
    RunKeepsInvariant(cfg, Empty(), es);
  }

  lemma EmptyInv(cfg: Config)
    ensures Inv(cfg, Empty())
  {
    var p := Empty();
    assert WithStatus(p, Idle) == {} && Dials(p.calls) == {};
    forall k ensures Tokens(p, k) == |SessionsOn(p.sessions, k)| + |CallsOn(p.calls, k)| {
      assert SessionsOn(p.sessions, k) == {} && CallsOn(p.calls, k) == {};
    }
  }

  /** The channel a step receives from without a default branch holds a token. */
  predicate HasToken(p: Pool, e: Event)
    requires Enabled(p, e)
  {
    match e
    case ReturnKey(t) => Tokens(p, p.calls[t].key) > 0
    case DialFail(t) => p.total > 0
    case DialFailKey(t) => Tokens(p, p.calls[t].key) > 0
    case CloseKey(s) => Tokens(p, p.sessions[s].key) > 0
    case CloseTotal(s) => p.total > 0
    case _ => true
  }

  /** No unconditional receive ever finds its channel empty, so the mutex is never held by a blocked goroutine. */
  lemma ReceivesNeverBlock(cfg: Config, p: Pool, e: Event)
    requires Inv(cfg, p) && Enabled(p, e)
    ensures HasToken(p, e)
  {
    match e
    case ReturnKey(t) => KeyTokenOfCall(p, t);
    case DialFail(t) => assert t in Dials(p.calls);
    case DialFailKey(t) => KeyTokenOfCall(p, t);
    case CloseKey(s) => KeyTokenOfSession(p, s);
    case CloseTotal(s) => assert s in p.sessions.Keys;
    case _ =>
  }

  lemma KeyTokenOfCall(p: Pool, t: Tid)
    requires TokensHeld(p) && t in p.calls && HoldsKey(p.calls[t], p.calls[t].key)
    ensures Tokens(p, p.calls[t].key) > 0
  {
    assert t in CallsOn(p.calls, p.calls[t].key);
  }

  lemma KeyTokenOfSession(p: Pool, s: Sid)
    requires TokensHeld(p) && s in p.sessions && p.sessions[s].status != Half
    ensures Tokens(p, p.sessions[s].key) > 0
  {
    assert s in SessionsOn(p.sessions, p.sessions[s].key);
  }

  // ----- The holder of the mutex finishes ----------------------------------

  /** What closeSessionLocked does to a session under the mutex. */
  function CloseOne(p: Pool, s: Sid): Pool
    requires s in p.sessions
  {
    p.(keys := AddKey(p, p.sessions[s].key, -1), total := p.total - 1, sessions := p.sessions - {s})
  }

  lemma CloseOneIsTwoSteps(cfg: Config, p: Pool, s: Sid)
    requires s in p.sessions && p.sessions[s].status == Doomed
    ensures RunEnabled(cfg, p, [CloseKey(s), CloseTotal(s)])
    ensures RunAll(cfg, p, [CloseKey(s), CloseTotal(s)]) == CloseOne(p, s)
  {
    var es := [CloseKey(s), CloseTotal(s)];
    var half := Next(cfg, p, CloseKey(s));
    assert Enabled(p, es[0]) && Enabled(half, CloseTotal(s));
    assert es[1..] == [CloseTotal(s)] && es[1..][1..] == [];
    var done := Next(cfg, half, CloseTotal(s));
    assert done.sessions == p.sessions - {s};
    assert RunEnabled(cfg, done, []);
    assert RunEnabled(cfg, half, [CloseTotal(s)]);
    assert RunAll(cfg, half, [CloseTotal(s)]) == done;
  }

  lemma {:induction false} RunAppend(cfg: Config, p: Pool, es: seq<Event>, fs: seq<Event>)
    requires RunEnabled(cfg, p, es) && RunEnabled(cfg, RunAll(cfg, p, es), fs)
    ensures RunEnabled(cfg, p, es + fs)
    ensures RunAll(cfg, p, es + fs) == RunAll(cfg, RunAll(cfg, p, es), fs)
    decreases |es|
  {
    if es == [] {
      assert es + fs == fs;
    } else {
      RunAppend(cfg, Next(cfg, p, es[0]), es[1..], fs);
      assert (es + fs)[1..] == es[1..] + fs;
    }
  }

  lemma RunOne(cfg: Config, p: Pool, e: Event)
    requires Enabled(p, e)
    ensures RunEnabled(cfg, p, [e]) && RunAll(cfg, p, [e]) == Next(cfg, p, e)
  {
    assert RunEnabled(cfg, Next(cfg, p, e), []);
  }

  predicate ClosingOnly(es: seq<Event>) { forall i :: 0 <= i < |es| ==> es[i].CloseKey? || es[i].CloseTotal? }

  lemma ClosingTotal(cfg: Config, p: Pool, s: Sid)
    requires s in WithStatus(p, Half)
    ensures
      var q := Next(cfg, p, CloseTotal(s));
      Enabled(p, CloseTotal(s)) && WithStatus(q, Doomed) == WithStatus(p, Doomed) &&
        WithStatus(q, Half) == WithStatus(p, Half) - {s}
  {
  }

  lemma ClosingKey(cfg: Config, p: Pool, s: Sid)
    requires s in WithStatus(p, Doomed)
    ensures Enabled(p, CloseKey(s)) && WithStatus(Next(cfg, p, CloseKey(s)), Doomed) == WithStatus(p, Doomed) - {s}
  {
  }

  /** From any state with the mutex held, the holder's own remaining steps free it, whatever the others did. */
  lemma {:induction false} MutexHolderFinishes(cfg: Config, p: Pool) returns (es: seq<Event>)
    ensures ClosingOnly(es) && RunEnabled(cfg, p, es) && MutexFree(RunAll(cfg, p, es))
    decreases |WithStatus(p, Doomed)|, |WithStatus(p, Half)|
  {
    if s :| s in WithStatus(p, Half) {
      var q := Next(cfg, p, CloseTotal(s));
      ClosingTotal(cfg, p, s);
      var rest := MutexHolderFinishes(cfg, q);
      es := [CloseTotal(s)] + rest;
      assert es[1..] == rest;
    } else if s :| s in WithStatus(p, Doomed) {
      var q := Next(cfg, p, CloseKey(s));
      ClosingKey(cfg, p, s);
      var rest := MutexHolderFinishes(cfg, q);
      es := [CloseKey(s)] + rest;
      assert es[1..] == rest;
    } else {
      es := [];
    }
  }

  // ----- Counting idle sessions --------------------------------------------

  function Under(p: Pool, ks: set<Key>): set<Sid> {
    set s | s in p.sessions && p.sessions[s].status == Idle && p.sessions[s].key in ks
  }

  function Elems(list: seq<Sid>): set<Sid> { set i | 0 <= i < |list| :: list[i] }

  lemma UnderOneMore(p: Pool, ks: set<Key>, k: Key)
    requires ListExact(p.sessions, IdleList(p, k), k, Idle) && k !in ks
    ensures |Under(p, ks + {k})| == |Under(p, ks)| + |IdleList(p, k)|
  {
    var list := IdleList(p, k);
    ImageSize(list);
    UnderSplits(p, ks, k);
    assert Under(p, ks) !! Elems(list);
  }

  lemma UnderSplits(p: Pool, ks: set<Key>, k: Key)
    requires ListExact(p.sessions, IdleList(p, k), k, Idle)
    ensures Under(p, ks + {k}) == Under(p, ks) + Elems(IdleList(p, k))
  {
  }

  lemma {:induction false} ImageSize(list: seq<Sid>)
    requires forall i, j :: 0 <= i < j < |list| ==> list[i] != list[j]
    ensures |Elems(list)| == |list|
    decreases |list|
  {
    if list != [] {
      ImageSize(list[1..]);
      ElemsCons(list);
      assert list[0] !in Elems(list[1..]);
    }
  }

  lemma ElemsCons(list: seq<Sid>)
    requires list != []
    ensures Elems(list) == {list[0]} + Elems(list[1..])
  {
    forall x | x in Elems(list) && x != list[0] ensures x in Elems(list[1..]) {
      var i :| 0 <= i < |list| && list[i] == x;
      assert list[1..][i - 1] == x;
    }
  }

  // ----- The pool object ---------------------------------------------------

  /** The fields that the mutex protects; each method is one mutex section, told as events. */
  class ConnectionPool {
    const cfg: Config
    var closed: bool
    var idle: map<Key, seq<Sid>>
    var keys: map<Key, int>
    var total: int
    var sessions: map<Sid, Session>
    ghost var calls: map<Tid, Call>

    ghost function View(): Pool
      reads this
    {
      Pool(closed, idle, keys, total, sessions, calls)
    }

    constructor (cfg: Config)
      ensures this.cfg == cfg && View() == Empty() && Inv(cfg, View())
    {
      this.cfg := cfg;
      closed, idle, keys, total, sessions, calls := false, map[], map[], 0, map[], map[];
      new;
      EmptyInv(cfg);
    }

    method IdleCount() returns (n: nat)
      requires IdleListsExact(View())
      ensures n == |WithStatus(View(), Idle)|
    {
      n := 0;
      var todo := idle.Keys;
      ghost var done: set<Key> := {};
      assert Under(View(), {}) == {};
      while todo != {}
        invariant todo !! done && todo + done == idle.Keys
        invariant n == |Under(View(), done)|
        decreases todo
      {
        var k :| k in todo;
        UnderOneMore(View(), done, k);
        n := n + |idle[k]|;
        todo := todo - {k};
        done := done + {k};
      }
      UnderAll(View());
      assert done == idle.Keys;
    }

    method CloseSession(s: Sid)
      requires s in sessions
      modifies this
      ensures View() == CloseOne(old(View()), s)
    {
      var key := sessions[s].key;
      keys := keys[key := (if key in keys then keys[key] else 0) - 1];
      total := total - 1;
      sessions := sessions - {s};
    }

    method Put(s: Sid, reusable: bool, now: nat)
      requires IdleListsExact(View()) && s in sessions
      modifies this
      ensures View() == PutDone(cfg, old(View()), s, reusable, now)
    {
      var used := sessions[s].(deliveries := sessions[s].deliveries + 1);
      var list := IdleOf(used.key);
      var count := IdleCount();
      if !reusable || closed || now - used.createdAt >= cfg.maxLifetime || used.deliveries >= cfg.maxDeliveries ||
        |list| >= cfg.maxIdlePerKey || count >= cfg.maxIdle
      {
        sessions := sessions[s := used.(status := Doomed)];
        CloseSession(s);
      } else {
        sessions := sessions[s := used.(idleSince := now, status := Idle)];
        idle := idle[used.key := list + [s]];
      }
    }

    /**
     * The mutex section at the head of `get`: reuse the newest idle session
     * that is still good, closing the stale ones above it.
     */
    method Checkout(ghost t: Tid, key: Key, now: nat) returns (found: Option<Sid>)
      requires t in calls && calls[t].key == key && IdleIn(View(), key)
      modifies this
      ensures View() == CheckoutDone(cfg, old(View()), t, now)
      ensures found == CheckoutFinds(cfg, old(View()), t, now)
    {
      if !closed {
        while IdleOf(key) != [] && !Reusable(cfg, sessions[Newest(key)], now)
          invariant !closed && t in calls && calls[t].key == key && IdleIn(View(), key)
          invariant CheckoutDone(cfg, View(), t, now) == CheckoutDone(cfg, old(View()), t, now)
          invariant CheckoutFinds(cfg, View(), t, now) == CheckoutFinds(cfg, old(View()), t, now)
          decreases |IdleOf(key)|
        {
          DropTopLeavesList(cfg, View(), t, now);
          CheckoutDrops(cfg, View(), t, now);
          CloseTop(t, key, now);
        }
      }
      CheckoutEnds(cfg, View(), t, now);
      found := Take(t, key, now);
    }

    /** What the lookup does once no stale session is on top: hand the newest out, or leave the list empty-handed. */
    method Take(ghost t: Tid, key: Key, ghost now: nat) returns (found: Option<Sid>)
      requires t in calls && calls[t].key == key && IdleIn(View(), key) && !StaleTop(cfg, View(), key, now)
      modifies this
      ensures View() == LookNext(cfg, old(View()), t, key, now)
      ensures found == old(if !closed && IdleOf(key) != [] then Some(Newest(key)) else None)
    {
      if closed {
        calls := calls - {t};
        return None;
      }
      if IdleOf(key) != [] {
        var list, s := IdleOf(key), Newest(key);
        idle := idle[key := list[..|list| - 1]];
        sessions := sessions[s := sessions[s].(status := Out)];
        calls := calls - {t};
        return Some(s);
      }
      keys := if key in keys then keys else keys[key := 0];
      calls := calls[t := Trying(key)];
      return None;
    }

    function Newest(key: Key): Sid
      requires IdleOf(key) != []
      reads this
    {
      IdleOf(key)[|IdleOf(key)| - 1]
    }

    /** The newest idle session leaves its list and is closed. */
    method CloseTop(ghost t: Tid, key: Key, ghost now: nat)
      requires t in calls && calls[t].key == key && IdleIn(View(), key) && StaleTop(cfg, View(), key, now)
      modifies this
      ensures View() == DropTop(cfg, old(View()), t, now)
    {
      var list := IdleOf(key);
      var s := list[|list| - 1];
      idle := idle[key := list[..|list| - 1]];
      sessions := sessions[s := sessions[s].(status := Doomed)];
      CloseSession(s);
    }

    function IdleOf(key: Key): seq<Sid>
      reads this
    {
      if key in idle then idle[key] else []
    }

    method CloseEach(list: seq<Sid>)
      requires ListIn(sessions, list)
      modifies this
      ensures View() == CloseList(old(View()), list)
    {
      var i := 0;
      while i < |list|
        invariant 0 <= i <= |list| && ListIn(sessions, list[i..])
        invariant CloseList(View(), list[i..]) == CloseList(old(View()), list)
      {
        assert list[i..][0] == list[i] && list[i..][1..] == list[i + 1..];
        CloseSession(list[i]);
        i := i + 1;
      }
    }

    /** Close empties the idle lists, closing every session in them. */
    method Close()
      requires IdleListsExact(View()) && IdleKeysKnown(View())
      modifies this
      ensures View() == CloseUnder(old(View()), old(idle).Keys)
    {
      closed := true;
      ghost var done: set<Key> := {};
      CloseUnderNone(old(View()));
      while idle != map[]
        invariant done <= old(idle).Keys
        invariant View() == CloseUnder(old(View()), done)
        decreases old(idle).Keys - done
      {
        var key :| key in idle;
        CloseUnderStep(old(View()), done, key);
        CloseEach(idle[key]);
        idle := idle - {key};
        done := done + {key};
      }
      CloseUnderEnds(old(View()), done);
    }
  }

  /** What a completed put leaves. */
  function PutDone(cfg: Config, p: Pool, s: Sid, reusable: bool, now: nat): Pool
    requires s in p.sessions
  {
    var q := PutNext(cfg, p, s, reusable, now);
    if q.sessions[s].status == Doomed then CloseOne(q, s) else q
  }

  predicate ListIn(sessions: map<Sid, Session>, list: seq<Sid>) {
    && (forall i :: 0 <= i < |list| ==> list[i] in sessions)
    && (forall i, j :: 0 <= i < j < |list| ==> list[i] != list[j])
  }

  predicate IdleIn(p: Pool, k: Key) { ListIn(p.sessions, IdleList(p, k)) }

  ghost predicate IdleKeysKnown(p: Pool) { forall k :: IdleList(p, k) != [] ==> k in p.keys }

  /** The newest idle session under the caller's key, if it must be closed. */
  predicate StaleTop(cfg: Config, p: Pool, k: Key, now: nat) {
    var list := IdleList(p, k);
    !p.closed && list != [] && list[|list| - 1] in p.sessions && !Reusable(cfg, p.sessions[list[|list| - 1]], now)
  }

  function DropTop(cfg: Config, p: Pool, t: Tid, now: nat): Pool
    requires t in p.calls && StaleTop(cfg, p, p.calls[t].key, now)
  {
    var list := IdleList(p, p.calls[t].key);
    CloseOne(LookNext(cfg, p, t, p.calls[t].key, now), list[|list| - 1])
  }

  /** What the whole mutex section at the head of `get` leaves. */
  function CheckoutDone(cfg: Config, p: Pool, t: Tid, now: nat): Pool
    requires t in p.calls
    decreases |IdleList(p, p.calls[t].key)|
  {
    if StaleTop(cfg, p, p.calls[t].key, now) then CheckoutDone(cfg, DropTop(cfg, p, t, now), t, now)
    else LookNext(cfg, p, t, p.calls[t].key, now)
  }

  function CheckoutFinds(cfg: Config, p: Pool, t: Tid, now: nat): Option<Sid>
    requires t in p.calls
    decreases |IdleList(p, p.calls[t].key)|
  {
    var list := IdleList(p, p.calls[t].key);
    if StaleTop(cfg, p, p.calls[t].key, now) then CheckoutFinds(cfg, DropTop(cfg, p, t, now), t, now)
    else if !p.closed && list != [] then Some(list[|list| - 1]) else None
  }

  function CloseList(p: Pool, list: seq<Sid>): (q: Pool)
    requires ListIn(p.sessions, list)
    ensures q.idle == p.idle
    decreases |list|
  {
    if list == [] then p
    else assert forall i :: 1 <= i < |list| ==> list[1..][i - 1] == list[i]; CloseList(CloseOne(p, list[0]), list[1..])
  }

  /** The pool once Close has worked through the keys in ks. */
  function CloseUnder(p: Pool, ks: set<Key>): Pool {
    Pool(true, p.idle - ks,
         map k | k in p.keys :: p.keys[k] - if k in ks then |IdleList(p, k)| else 0,
         p.total - |Under(p, ks)|,
         p.sessions - Under(p, ks), p.calls)
  }

  lemma CloseUnderNone(p: Pool)
    ensures CloseUnder(p, {}) == p.(closed := true)
  {
    assert Under(p, {}) == {};
  }

  lemma {:induction false} CloseListValue(p: Pool, list: seq<Sid>, key: Key)
    requires ListIn(p.sessions, list) && key in p.keys
    requires forall i :: 0 <= i < |list| ==> p.sessions[list[i]].key == key
    ensures CloseList(p, list) ==
      p.(keys := p.keys[key := p.keys[key] - |list|], total := p.total - |list|, sessions := p.sessions - Elems(list))
    decreases |list|
  {
    if list == [] {
      assert p.keys[key := p.keys[key]] == p.keys;
    } else {
      var q := CloseOne(p, list[0]);
      CloseListValue(q, list[1..], key);
      ElemsCons(list);
      MinusTwice(p.sessions, {list[0]}, Elems(list[1..]));
    }
  }

  lemma CloseUnderEnds(p: Pool, ks: set<Key>)
    requires ks <= p.idle.Keys && CloseUnder(p, ks).idle == map[]
    ensures ks == p.idle.Keys
  {
    forall k | k in p.idle ensures k in ks {
      assert k !in p.idle - ks;
    }
  }

  lemma CloseUnderStep(p: Pool, ks: set<Key>, k: Key)
    requires IdleListsExact(p) && IdleKeysKnown(p) && k in CloseUnder(p, ks).idle
    ensures k in p.idle
    ensures
      var q := CloseUnder(p, ks);
      ListIn(q.sessions, q.idle[k]) &&
      CloseUnder(p, ks + {k}) == CloseList(q, q.idle[k]).(idle := q.idle - {k})
  {
    assert IdleList(p, k) == p.idle[k];
    CloseUnderOneMore(p, ks, k);
  }

  lemma CloseUnderOneMore(p: Pool, ks: set<Key>, k: Key)
    requires ListExact(p.sessions, IdleList(p, k), k, Idle) && k !in ks && k in p.idle
    requires (p.idle[k] != [] ==> k in p.keys)
    ensures
      var q := CloseUnder(p, ks);
      ListIn(q.sessions, p.idle[k]) &&
      CloseUnder(p, ks + {k}) == CloseList(q, p.idle[k]).(idle := p.idle - ks - {k})
  {
    var q, list := CloseUnder(p, ks), p.idle[k];
    ListStillIn(p, ks, k);
    UnderOneMore(p, ks, k);
    SessionsOneMore(p, ks, k);
    KeysOneMore(p, ks, k);
    assert p.idle - ks - {k} == p.idle - (ks + {k});
    if list != [] {
      CloseListValue(q, list, k);
    } else {
      EmptyListChangesNothing(q, k);
    }
  }

  lemma EmptyListChangesNothing(q: Pool, k: Key)
    ensures q.sessions - Elems([]) == q.sessions
    ensures k in q.keys ==> q.keys[k := q.keys[k]] == q.keys
  {
  }

  lemma ListStillIn(p: Pool, ks: set<Key>, k: Key)
    requires ListExact(p.sessions, IdleList(p, k), k, Idle) && k !in ks
    ensures
      var q, list := CloseUnder(p, ks), IdleList(p, k);
      ListIn(q.sessions, list) && forall i :: 0 <= i < |list| ==> q.sessions[list[i]].key == k
  {
    var list := IdleList(p, k);
    assert forall i :: 0 <= i < |list| ==> list[i] !in Under(p, ks);
  }

  lemma MinusTwice(m: map<Sid, Session>, a: set<Sid>, b: set<Sid>)
    ensures m - (a + b) == m - a - b
  {
  }

  lemma SessionsOneMore(p: Pool, ks: set<Key>, k: Key)
    requires ListExact(p.sessions, IdleList(p, k), k, Idle)
    ensures CloseUnder(p, ks + {k}).sessions == CloseUnder(p, ks).sessions - Elems(IdleList(p, k))
  {
    UnderSplits(p, ks, k);
    MinusTwice(p.sessions, Under(p, ks), Elems(IdleList(p, k)));
  }

  lemma KeysOneMore(p: Pool, ks: set<Key>, k: Key)
    requires k !in ks
    ensures
      var q, r, n := CloseUnder(p, ks), CloseUnder(p, ks + {k}), |IdleList(p, k)|;
      r.keys == if k in p.keys then q.keys[k := q.keys[k] - n] else q.keys
  {
  }

  lemma CloseOneKeepsInv(cfg: Config, p: Pool, s: Sid)
    requires Inv(cfg, p) && s in p.sessions && p.sessions[s].status == Doomed
    ensures Inv(cfg, CloseOne(p, s))
  {
    CloseOneIsTwoSteps(cfg, p, s);
    RunKeepsInvariant(cfg, p, [CloseKey(s), CloseTotal(s)]);
  }

  lemma CheckoutDrops(cfg: Config, p: Pool, t: Tid, now: nat)
    requires t in p.calls && StaleTop(cfg, p, p.calls[t].key, now)
    ensures CheckoutDone(cfg, p, t, now) == CheckoutDone(cfg, DropTop(cfg, p, t, now), t, now)
    ensures CheckoutFinds(cfg, p, t, now) == CheckoutFinds(cfg, DropTop(cfg, p, t, now), t, now)
  {
  }

  lemma CheckoutEnds(cfg: Config, p: Pool, t: Tid, now: nat)
    requires t in p.calls && !StaleTop(cfg, p, p.calls[t].key, now)
    ensures
      var list := IdleList(p, p.calls[t].key);
      && CheckoutDone(cfg, p, t, now) == LookNext(cfg, p, t, p.calls[t].key, now)
      && CheckoutFinds(cfg, p, t, now) == if !p.closed && list != [] then Some(list[|list| - 1]) else None
  {
  }

  lemma DropTopLeavesList(cfg: Config, p: Pool, t: Tid, now: nat)
    requires t in p.calls && StaleTop(cfg, p, p.calls[t].key, now) && IdleIn(p, p.calls[t].key)
    ensures IdleIn(DropTop(cfg, p, t, now), p.calls[t].key)
  {
  }

  // ----- The object's methods are runs of the state machine -----------------

  ghost predicate Reuses(cfg: Config, p: Pool, q: Pool, t: Tid, s: Sid, now: nat) {
    && t in p.calls && s in p.sessions && p.sessions[s].status == Idle && p.sessions[s].key == p.calls[t].key
    && Reusable(cfg, p.sessions[s], now)
    && s in q.sessions && q.sessions[s] == p.sessions[s].(status := Out) && q.calls == p.calls - {t}
  }

  /** One stale session closed at the head of `get`, with the mutex free again before the next look. */
  lemma DropTopIsARun(cfg: Config, p: Pool, t: Tid, now: nat)
    requires Inv(cfg, p) && Enabled(p, Look(t, now)) && StaleTop(cfg, p, p.calls[t].key, now)
    ensures
      var s, q := IdleList(p, p.calls[t].key)[|IdleList(p, p.calls[t].key)| - 1], DropTop(cfg, p, t, now);
      var es := [Look(t, now)] + [CloseKey(s), CloseTotal(s)];
      RunEnabled(cfg, p, es) && RunAll(cfg, p, es) == q && Inv(cfg, q) && Enabled(q, Look(t, now)) &&
      q.calls == p.calls && q.closed == p.closed && q.sessions == p.sessions - {s}
  {
    var key := p.calls[t].key;
    var list := IdleList(p, key);
    var s := list[|list| - 1];
    var mid := Next(cfg, p, Look(t, now));
    RunOne(cfg, p, Look(t, now));
    StepKeepsInvariant(cfg, p, Look(t, now));
    CloseOneIsTwoSteps(cfg, mid, s);
    CloseOneKeepsInv(cfg, mid, s);
    RunAppend(cfg, p, [Look(t, now)], [CloseKey(s), CloseTotal(s)]);
    var q := CloseOne(mid, s);
    assert q.sessions == p.sessions - {s};
    assert WithStatus(q, Doomed) <= WithStatus(p, Doomed) && WithStatus(q, Half) <= WithStatus(p, Half);
  }

  lemma {:induction false} CheckoutIsARun(cfg: Config, p: Pool, t: Tid, now: nat) returns (es: seq<Event>)
    requires Inv(cfg, p) && Enabled(p, Look(t, now))
    ensures RunEnabled(cfg, p, es) && RunAll(cfg, p, es) == CheckoutDone(cfg, p, t, now)
    decreases |IdleList(p, p.calls[t].key)|
  {
    if StaleTop(cfg, p, p.calls[t].key, now) {
      var list := IdleList(p, p.calls[t].key);
      var s := list[|list| - 1];
      DropTopIsARun(cfg, p, t, now);
      var rest := CheckoutIsARun(cfg, DropTop(cfg, p, t, now), t, now);
      RunAppend(cfg, p, [Look(t, now)] + [CloseKey(s), CloseTotal(s)], rest);
      es := [Look(t, now)] + [CloseKey(s), CloseTotal(s)] + rest;
    } else {
      RunOne(cfg, p, Look(t, now));
      es := [Look(t, now)];
    }
  }

  /**
   * A session handed out was idle under the caller's key and good; none is
   * handed out only from a closed pool or an emptied list.
   */
  lemma {:induction false} CheckoutMeaning(cfg: Config, p: Pool, t: Tid, now: nat)
    requires Inv(cfg, p) && Enabled(p, Look(t, now))
    ensures
      var q, found := CheckoutDone(cfg, p, t, now), CheckoutFinds(cfg, p, t, now);
      if found.Some? then Reuses(cfg, p, q, t, found.value, now)
      else if p.closed then q == p.(calls := p.calls - {t})
      else q.calls == p.calls[t := Trying(p.calls[t].key)] && IdleList(q, p.calls[t].key) == []
    decreases |IdleList(p, p.calls[t].key)|
  {
    var key := p.calls[t].key;
    assert ListExact(p.sessions, IdleList(p, key), key, Idle);
    if StaleTop(cfg, p, key, now) {
      DropTopIsARun(cfg, p, t, now);
      CheckoutMeaning(cfg, DropTop(cfg, p, t, now), t, now);
    }
  }

  lemma PutIsARun(cfg: Config, p: Pool, s: Sid, reusable: bool, now: nat) returns (es: seq<Event>)
    requires Inv(cfg, p) && Enabled(p, Put(s, reusable, now))
    ensures es == [Put(s, reusable, now)] || es == [Put(s, reusable, now)] + [CloseKey(s), CloseTotal(s)]
    ensures RunEnabled(cfg, p, es) && RunAll(cfg, p, es) == PutDone(cfg, p, s, reusable, now)
  {
    var e := Put(s, reusable, now);
    var q := Next(cfg, p, e);
    RunOne(cfg, p, e);
    es := [e];
    if q.sessions[s].status == Doomed {
      CloseOneIsTwoSteps(cfg, q, s);
      RunAppend(cfg, p, [e], [CloseKey(s), CloseTotal(s)]);
      es := [e] + [CloseKey(s), CloseTotal(s)];
    }
  }

  /** Closing steps take doomed sessions away and touch nothing else but the tokens. */
  ghost predicate OnlyCloses(p: Pool, q: Pool) {
    && q.closed == p.closed && q.idle == p.idle && q.calls == p.calls && q.keys.Keys == p.keys.Keys
    && (forall s :: s in q.sessions ==> s in p.sessions && q.sessions[s].key == p.sessions[s].key)
    && (forall s :: s in p.sessions && (p.sessions[s].status == Out || p.sessions[s].status == Idle) ==>
          s in q.sessions && q.sessions[s] == p.sessions[s])
    && (forall s :: s in q.sessions && (q.sessions[s].status == Out || q.sessions[s].status == Idle) ==>
        q.sessions[s] == p.sessions[s])
  }

  lemma CloseStepOnlyCloses(cfg: Config, p: Pool, e: Event)
    requires Inv(cfg, p) && Enabled(p, e) && (e.CloseKey? || e.CloseTotal?)
    ensures OnlyCloses(p, Next(cfg, p, e))
  {
    if e.CloseKey? { KeyTokenOfSession(p, e.s); }
  }

  lemma {:induction false} ClosingRun(cfg: Config, p: Pool, es: seq<Event>)
    requires Inv(cfg, p) && ClosingOnly(es) && RunEnabled(cfg, p, es)
    ensures OnlyCloses(p, RunAll(cfg, p, es))
    decreases |es|
  {
    if es != [] {
      var mid := Next(cfg, p, es[0]);
      StepKeepsInvariant(cfg, p, es[0]);
      CloseStepOnlyCloses(cfg, p, es[0]);
      assert es[0].CloseKey? || es[0].CloseTotal?;
      ClosingRun(cfg, mid, es[1..]);
    }
  }

  /** The object's Close is the event CloseAll followed by closing steps of its own. */
  lemma CloseIsARun(cfg: Config, p: Pool) returns (es: seq<Event>)
    requires Inv(cfg, p) && MutexFree(p)
    ensures ClosingOnly(es) && RunEnabled(cfg, p, [CloseAll] + es)
    ensures RunAll(cfg, p, [CloseAll] + es) == CloseUnder(p, p.idle.Keys)
  {
    var start := Next(cfg, p, CloseAll);
    StepKeepsInvariant(cfg, p, CloseAll);
    es := MutexHolderFinishes(cfg, start);
    RunOne(cfg, p, CloseAll);
    RunAppend(cfg, p, [CloseAll], es);
    RunKeepsInvariant(cfg, start, es);
    ClosingRun(cfg, start, es);
    ClosedPoolIsDetermined(cfg, p, RunAll(cfg, start, es));
  }

  lemma ClosedPoolIsDetermined(cfg: Config, p: Pool, q: Pool)
    requires Inv(cfg, p) && MutexFree(p) && Inv(cfg, q) && MutexFree(q) && OnlyCloses(CloseAllNext(p), q)
    ensures q == CloseUnder(p, p.idle.Keys)
  {
    SurvivorsAre(p, q);
    TotalAfterClose(p, q);
    KeysAfterClose(p, q);
    ClosedFields(p, q);
  }

  lemma ClosedFields(p: Pool, q: Pool)
    requires IdleListsExact(p) && q.closed && q.idle == map[] && q.calls == p.calls
    requires q.sessions == p.sessions - WithStatus(p, Idle) && q.total == p.total - |WithStatus(p, Idle)|
    requires q.keys == CloseUnder(p, p.idle.Keys).keys
    ensures q == CloseUnder(p, p.idle.Keys)
  {
    UnderAll(p);
    assert p.idle - p.idle.Keys == map[];
  }

  lemma UnderAll(p: Pool)
    requires IdleListsExact(p)
    ensures Under(p, p.idle.Keys) == WithStatus(p, Idle)
  {
    forall s | s in WithStatus(p, Idle) ensures s in Under(p, p.idle.Keys) {
      assert ListExact(p.sessions, IdleList(p, p.sessions[s].key), p.sessions[s].key, Idle);
    }
  }

  lemma SurvivorsAre(p: Pool, q: Pool)
    requires MutexFree(p) && MutexFree(q) && OnlyCloses(CloseAllNext(p), q) && WithStatus(q, Idle) == {}
    ensures q.sessions == p.sessions - WithStatus(p, Idle)
  {
    forall s ensures s in q.sessions <==> s in p.sessions && p.sessions[s].status == Out {
      if s in q.sessions {
        assert s !in WithStatus(q, Doomed) && s !in WithStatus(q, Half) && s !in WithStatus(q, Idle);
      }
    }
    forall s | s in p.sessions && p.sessions[s].status != Out ensures s in WithStatus(p, Idle) {
      assert s !in WithStatus(p, Doomed) && s !in WithStatus(p, Half);
    }
    forall s | s in q.sessions ensures q.sessions[s] == p.sessions[s] {
      assert CloseAllNext(p).sessions[s] == p.sessions[s];
    }
  }

  lemma TotalAfterClose(p: Pool, q: Pool)
    requires TokensHeld(p) && TokensHeld(q) && q.calls == p.calls
    requires q.sessions == p.sessions - WithStatus(p, Idle)
    ensures q.total == p.total - |WithStatus(p, Idle)|
  {
    var gone := WithStatus(p, Idle);
    assert p.sessions.Keys == q.sessions.Keys + gone && q.sessions.Keys !! gone;
    assert |p.sessions.Keys| == |p.sessions| && |q.sessions.Keys| == |q.sessions|;
  }

  lemma KeysAfterClose(p: Pool, q: Pool)
    requires TokensHeld(p) && IdleListsExact(p) && TokensHeld(q) && q.calls == p.calls && q.keys.Keys == p.keys.Keys
    requires q.sessions == p.sessions - WithStatus(p, Idle)
    ensures q.keys == CloseUnder(p, p.idle.Keys).keys
  {
    forall k | k in p.keys ensures q.keys[k] == p.keys[k] - |IdleList(p, k)| {
      assert IdleListsExact(p) ==> ListExact(p.sessions, IdleList(p, k), k, Idle);
      KeyTokensAfterClose(p, q, k);
      assert Tokens(p, k) == p.keys[k] && Tokens(q, k) == q.keys[k];
    }
    LoweredKeys(p, q.keys);
  }

  lemma LoweredKeys(p: Pool, m: map<Key, int>)
    requires m.Keys == p.keys.Keys && forall k :: k in p.keys ==> m[k] == p.keys[k] - |IdleList(p, k)|
    ensures m == CloseUnder(p, p.idle.Keys).keys
  {
  }

  lemma KeyTokensAfterClose(p: Pool, q: Pool, k: Key)
    requires TokensHeld(p) && ListExact(p.sessions, IdleList(p, k), k, Idle) && TokensHeld(q) && q.calls == p.calls
    requires q.sessions == p.sessions - WithStatus(p, Idle)
    ensures Tokens(q, k) == Tokens(p, k) - |IdleList(p, k)|
  {
    KeyHoldersAfterClose(p, q.sessions, k);
    ImageSize(IdleList(p, k));
    assert Tokens(p, k) == |SessionsOn(p.sessions, k)| + |CallsOn(p.calls, k)|;
    assert Tokens(q, k) == |SessionsOn(q.sessions, k)| + |CallsOn(q.calls, k)|;
  }

  lemma KeyHoldersAfterClose(p: Pool, kept: map<Sid, Session>, k: Key)
    requires ListExact(p.sessions, IdleList(p, k), k, Idle) && kept == p.sessions - WithStatus(p, Idle)
    ensures SessionsOn(p.sessions, k) == SessionsOn(kept, k) + Elems(IdleList(p, k))
    ensures SessionsOn(kept, k) !! Elems(IdleList(p, k))
  {
  }
}
