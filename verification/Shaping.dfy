/**
 * The in-memory traffic shaper: token buckets for messages and connections,
 * expiring connection leases, and eviction of idle groups.
 *
 * Time is in nanoseconds, zero being the unset time. A token level is counted
 * in units of 1/TOKEN of a token, so that a rate per minute adds exactly
 * `rate` units per nanosecond and no rounding is involved.
 */
module Shaping {
  import opened Common

  const SECOND: nat := 1_000_000_000
  const MINUTE: nat := 60 * SECOND
  const TOKEN: nat := 60_000_000_000
  const CAPACITY: nat := 10000
  const LEASE_WAIT: nat := 100_000_000

  datatype Limits = Limits(
    messagesPerMinute: nat, messageBurst: nat,
    connectionsPerMinute: nat, connectionBurst: nat,
    maxConnections: nat)

  datatype Bucket = Bucket(level: int, updated: nat)

  function Cap(burst: nat): nat {
    (if burst == 0 then 1 else burst) * TOKEN
  }

  function Refill(b: Bucket, now: nat, rate: nat, burst: nat): Bucket {
    if rate == 0 then b
    else if b.updated == 0 then Bucket(Cap(burst), now)
    else Bucket(Min(Cap(burst), b.level + Max(0, now - b.updated) * rate), now)
  }

  function CeilDiv(a: int, b: nat): int
    requires b > 0
  {
    (a + b - 1) / b
  }

  /** How long until the bucket holds a whole token. */
  function Delay(b: Bucket, rate: nat): nat {
    if rate == 0 || b.level >= TOKEN then 0
    else CeilIsNat(TOKEN - b.level, rate); CeilDiv(TOKEN - b.level, rate)
  }

  lemma CeilIsNat(a: int, b: nat)
    requires a > 0 && b > 0
    ensures CeilDiv(a, b) > 0
  {}

  function IdleFor(rate: nat, burst: nat, ttl: nat): nat {
    if rate == 0 then ttl
    else Max(ttl, (Max(burst, 1) * 60 + rate - 1) / rate * SECOND + MINUTE)
  }

  /** How long a group must be idle before it may be evicted. */
  function IdleTTL(l: Limits, leaseTTL: nat): nat {
    IdleFor(l.connectionsPerMinute, l.connectionBurst,
      IdleFor(l.messagesPerMinute, l.messageBurst, leaseTTL + MINUTE))
  }

  /** One shaping group. */
  datatype Group = Group(messages: Bucket, connections: Bucket, leases: map<nat, nat>, last: nat, idleTTL: nat)

  datatype Answer = Granted(token: nat) | Wait(delay: nat) | Full | Cancelled

  function FreshGroup(l: Limits, ttl: nat): Group {
    Group(Bucket(0, 0), Bucket(0, 0), map[], 0, IdleTTL(l, ttl))
  }

  /** The group as an acquire at `now` finds it: expired leases gone, buckets refilled. */
  function Settle(g: Group, now: nat, l: Limits): Group {
    Group(Refill(g.messages, now, l.messagesPerMinute, l.messageBurst),
          Refill(g.connections, now, l.connectionsPerMinute, l.connectionBurst),
          map t | t in g.leases && g.leases[t] > now :: g.leases[t],
          now, g.idleTTL)
  }

  /** What a settled group makes the caller wait. */
  function WaitFor(g: Group, l: Limits, message: bool): nat {
    Max(Max(Delay(g.connections, l.connectionsPerMinute),
            if message then Delay(g.messages, l.messagesPerMinute) else 0),
        if l.maxConnections > 0 && |g.leases| >= l.maxConnections then LEASE_WAIT else 0)
  }

  function Spend(b: Bucket, rate: nat): Bucket {
    if rate > 0 then b.(level := b.level - TOKEN) else b
  }

  function Grant(g: Group, l: Limits, message: bool, ttl: nat, token: nat): Group {
    g.(messages := if message then Spend(g.messages, l.messagesPerMinute) else g.messages,
       connections := Spend(g.connections, l.connectionsPerMinute),
       leases := g.leases[token := g.last + ttl])
  }

  /** One acquire on one group: the new group and the answer. */
  function Touch(g: Group, now: nat, l: Limits, message: bool, ttl: nat, token: nat): (Group, Answer) {
    var s := Settle(g, now, l);
    var wait := WaitFor(s, l, message);
    if wait > 0 then (s, Wait(wait)) else (Grant(s, l, message, ttl, token), Granted(token))
  }

  // ----- Bucket arithmetic -------------------------------------------------

  lemma MulAdd(a: nat, b: nat, c: nat)
    ensures (a + b) * c == a * c + b * c
  {}

  lemma MulMono(a: nat, b: nat, c: nat)
    requires a <= b
    ensures a * c <= b * c
  {
    MulAdd(a, b - a, c);
  }

  /** Refilling twice is refilling once. */
  lemma RefillTwice(b: Bucket, t: nat, u: nat, rate: nat, burst: nat)
    requires 0 < t <= u && b.updated <= t
    ensures Refill(Refill(b, t, rate, burst), u, rate, burst) == Refill(b, u, rate, burst)
  {
    if rate > 0 && b.updated > 0 {
      MulAdd(t - b.updated, u - t, rate);
    }
  }

  /** The returned delay is exact: a token is there after it, and not before. */
  lemma DelayIsExact(b: Bucket, rate: nat, burst: nat, d: nat)
    requires rate > 0 && b.updated > 0
    ensures Refill(b, b.updated + d, rate, burst).level >= TOKEN <==> b.level >= TOKEN || d >= Delay(b, rate)
  {
    var need := TOKEN - b.level;
    if need > 0 {
      var c := CeilDiv(need, rate);
      CeilBounds(need, rate);
      CeilIsNat(need, rate);
      if d >= c { MulMono(c, d, rate); } else { MulMono(d, c - 1, rate); }
    }
  }

  lemma CeilBounds(a: int, b: nat)
    requires a > 0 && b > 0
    ensures (CeilDiv(a, b) - 1) * b < a <= CeilDiv(a, b) * b
  {
    var q, r := (a + b - 1) / b, (a + b - 1) % b;
    assert a + b - 1 == q * b + r;
    assert (q - 1) * b == q * b - b;
  }

  /** After the idle time any bucket is full again. */
  lemma IdleFills(b: Bucket, now: nat, rate: nat, burst: nat, ttl: nat)
    requires rate > 0 && 0 < b.updated <= now && b.level >= 0
    requires now - b.updated > IdleFor(rate, burst, ttl)
    ensures Refill(b, now, rate, burst) == Bucket(Cap(burst), now)
  {
    var n := Max(burst, 1);
    var secs := (n * 60 + rate - 1) / rate;
    CeilBounds(n * 60, rate);
    var gap := now - b.updated;
    assert secs * rate >= n * 60;
    MulMono(n * 60, secs * rate, SECOND);
    assert secs * rate * SECOND == secs * SECOND * rate;
    MulMono(secs * SECOND, gap, rate);
    assert gap * rate >= n * 60 * SECOND == Cap(burst);
  }

  // ----- The limiter, with and without eviction ----------------------------

  /** Limits and lease time of a group; fixed for the life of the process. */
  datatype Rule = Rule(limits: Limits, ttl: nat)

  type Rules = map<string, Rule>

  datatype LState = LState(groups: map<string, Group>, issued: nat)

  datatype Op = Acquire(key: string, now: nat, message: bool) | Release(key: string, token: nat)

  function Idle(g: Group, now: nat): bool { now - g.last > g.idleTTL }

  function Evict(groups: map<string, Group>, now: nat): map<string, Group> {
    map k | k in groups && !Idle(groups[k], now) :: groups[k]
  }

  function TouchIn(groups: map<string, Group>, issued: nat, g: Group, key: string, now: nat, rule: Rule,
                   message: bool): (LState, Answer) {
    var (g', answer) := Touch(g, now, rule.limits, message, rule.ttl, issued + 1);
    (LState(groups[key := g'], if answer.Granted? then issued + 1 else issued), answer)
  }

  /** acquire as the source does it: at capacity, idle groups are evicted before a new one is made. */
  function AcquireBounded(s: LState, key: string, now: nat, rule: Rule, message: bool): (LState, Answer) {
    if key in s.groups then TouchIn(s.groups, s.issued, s.groups[key], key, now, rule, message)
    else
      var kept := if |s.groups| >= CAPACITY then Evict(s.groups, now) else s.groups;
      if |kept| >= CAPACITY then (s.(groups := kept), Full)
      else TouchIn(kept, s.issued, FreshGroup(rule.limits, rule.ttl), key, now, rule, message)
  }

  /** The same acquire on a limiter that never evicts and has room for every group. */
  function AcquireUnbounded(s: LState, key: string, now: nat, rule: Rule, message: bool): (LState, Answer) {
    TouchIn(s.groups, s.issued, if key in s.groups then s.groups[key] else FreshGroup(rule.limits, rule.ttl),
            key, now, rule, message)
  }

  /** Releasing deletes the token from the group it was issued in. */
  function ReleaseIn(s: LState, key: string, token: nat): LState {
    if key in s.groups then s.(groups := s.groups[key := s.groups[key].(leases := s.groups[key].leases - {token})])
      else s
  }

  // ----- What every reachable group satisfies ------------------------------

  predicate SoundBucket(b: Bucket, rate: nat, burst: nat, last: nat) {
    if rate == 0 then b == Bucket(0, 0) else 0 <= b.level <= Cap(burst) && b.updated == last > 0
  }

  ghost predicate SoundGroup(g: Group, rule: Rule, now: nat) {
    && 0 < g.last <= now && g.idleTTL == IdleTTL(rule.limits, rule.ttl)
    && SoundBucket(g.messages, rule.limits.messagesPerMinute, rule.limits.messageBurst, g.last)
    && SoundBucket(g.connections, rule.limits.connectionsPerMinute, rule.limits.connectionBurst, g.last)
    && (forall t :: t in g.leases ==> g.leases[t] <= g.last + rule.ttl)
    && (rule.limits.maxConnections > 0 ==> |g.leases| <= rule.limits.maxConnections)
  }

  /** Fresh or reachable. */
  ghost predicate Usable(g: Group, rule: Rule, now: nat) {
    g == FreshGroup(rule.limits, rule.ttl) || SoundGroup(g, rule, now)
  }

  lemma SettleBucket(b: Bucket, rate: nat, burst: nat, last: nat, now: nat)
    requires 0 < now && last <= now
    requires b == Bucket(0, 0) || SoundBucket(b, rate, burst, last)
    ensures SoundBucket(Refill(b, now, rate, burst), rate, burst, now)
  {
    if rate > 0 && b.updated > 0 {
      MulMono(0, now - b.updated, rate);
    }
  }

  lemma LiveLeases(g: Group, now: nat, l: Limits)
    ensures |Settle(g, now, l).leases| <= |g.leases|
  {
    var live := Settle(g, now, l).leases;
    assert live.Keys <= g.leases.Keys;
    SubsetSize(live.Keys, g.leases.Keys);
  }

  lemma SubsetSize<T>(a: set<T>, b: set<T>)
    requires a <= b
    ensures |a| <= |b|
  {
    assert b == a + (b - a);
  }

  /** Every acquire leaves a sound group: levels within the burst, live leases within MaxConnections. */
  lemma TouchKeepsSound(g: Group, rule: Rule, before: nat, now: nat, message: bool, token: nat)
    requires Usable(g, rule, before) && 0 < now && before <= now
    ensures SoundGroup(Touch(g, now, rule.limits, message, rule.ttl, token).0, rule, now)
  {
    var l := rule.limits;
    var s := Settle(g, now, l);
    SettleBucket(g.messages, l.messagesPerMinute, l.messageBurst, g.last, now);
    SettleBucket(g.connections, l.connectionsPerMinute, l.connectionBurst, g.last, now);
    LiveLeases(g, now, l);
    if WaitFor(s, l, message) == 0 {
      NoDelayMeansAToken(s.connections, l.connectionsPerMinute);
      if message { NoDelayMeansAToken(s.messages, l.messagesPerMinute); }
    }
  }

  lemma NoDelayMeansAToken(b: Bucket, rate: nat)
    requires Delay(b, rate) == 0
    ensures rate == 0 || b.level >= TOKEN
  {
    if rate > 0 && b.level < TOKEN { CeilIsNat(TOKEN - b.level, rate); }
  }

  // ----- Eviction cannot be observed ---------------------------------------

  /** An idle group answers, and continues, exactly as a fresh one would. */
  lemma IdleIsFresh(g: Group, rule: Rule, before: nat, now: nat)
    requires SoundGroup(g, rule, before) && before <= now && Idle(g, now)
    ensures Settle(g, now, rule.limits) == Settle(FreshGroup(rule.limits, rule.ttl), now, rule.limits)
  {
    var l := rule.limits;
    var base := rule.ttl + MINUTE;
    var mid := IdleFor(l.messagesPerMinute, l.messageBurst, base);
    assert IdleTTL(l, rule.ttl) >= mid >= base;
    if l.messagesPerMinute > 0 {
      IdleFills(g.messages, now, l.messagesPerMinute, l.messageBurst, base);
    }
    if l.connectionsPerMinute > 0 {
      IdleFills(g.connections, now, l.connectionsPerMinute, l.connectionBurst, mid);
    }
    assert Settle(g, now, l).leases == map[];
    assert Settle(FreshGroup(l, rule.ttl), now, l).leases == map[];
  }

  /**
   * The bounded limiter against the unbounded one at time `now`: the same
   * groups, except that some groups of the unbounded one are missing here and
   * all of those are idle.
   */
  ghost predicate Agree(rules: Rules, a: LState, b: LState, now: nat) {
    a.issued == b.issued && AllSound(rules, b.groups, now) && Mirrors(a.groups, b.groups, now)
  }

  ghost predicate AllSound(rules: Rules, groups: map<string, Group>, now: nat) {
    forall k :: k in groups ==> k in rules && SoundGroup(groups[k], rules[k], now)
  }

  ghost predicate Mirrors(a: map<string, Group>, b: map<string, Group>, now: nat) {
    && (forall k :: k in a ==> k in b && a[k] == b[k])
    && (forall k :: k in b && k !in a ==> Idle(b[k], now))
  }

  lemma TimePasses(rules: Rules, a: LState, b: LState, before: nat, now: nat)
    requires Agree(rules, a, b, before) && before <= now
    ensures Agree(rules, a, b, now)
  {}

  /** Storing one and the same sound group on both sides keeps them in agreement. */
  lemma StoreBoth(rules: Rules, a: LState, b: LState, now: nat, key: string, g: Group, issued: nat)
    requires Agree(rules, a, b, now) && key in rules && SoundGroup(g, rules[key], now)
    ensures Agree(rules, LState(a.groups[key := g], issued), LState(b.groups[key := g], issued), now)
  {
    StoreSound(rules, b.groups, now, key, g);
    StoreMirrored(a.groups, b.groups, now, key, g);
  }

  lemma StoreSound(rules: Rules, groups: map<string, Group>, now: nat, key: string, g: Group)
    requires AllSound(rules, groups, now) && key in rules && SoundGroup(g, rules[key], now)
    ensures AllSound(rules, groups[key := g], now)
  {
    var n := groups[key := g];
    forall k | k in n ensures k in rules && SoundGroup(n[k], rules[k], now) {
      if k != key { assert n[k] == groups[k]; }
    }
  }

  lemma StoreMirrored(a: map<string, Group>, b: map<string, Group>, now: nat, key: string, g: Group)
    requires Mirrors(a, b, now)
    ensures Mirrors(a[key := g], b[key := g], now)
  {
  }

  lemma TouchAgrees(rules: Rules, kept: map<string, Group>, b: LState, before: nat, now: nat, key: string,
                    message: bool)
    requires Agree(rules, LState(kept, b.issued), b, before) && key in rules && 0 < now && before <= now
    ensures var g := if key in kept then kept[key] else FreshGroup(rules[key].limits, rules[key].ttl);
      var (a', x) := TouchIn(kept, b.issued, g, key, now, rules[key], message);
      var (b', y) := AcquireUnbounded(b, key, now, rules[key], message);
      x == y && Agree(rules, a', b', now)
  {
    var rule, token := rules[key], b.issued + 1;
    var g := if key in kept then kept[key] else FreshGroup(rule.limits, rule.ttl);
    var h := if key in b.groups then b.groups[key] else FreshGroup(rule.limits, rule.ttl);
    SameTouch(g, h, rule, before, now, message, token);
    var (g', answer) := Touch(h, now, rule.limits, message, rule.ttl, token);
    TimePasses(rules, LState(kept, b.issued), b, before, now);
    StoreBoth(rules, LState(kept, b.issued), b, now, key, g', if answer.Granted? then token else b.issued);
  }

  lemma SameTouch(g: Group, h: Group, rule: Rule, before: nat, now: nat, message: bool, token: nat)
    requires Usable(h, rule, before) && 0 < now && before <= now
    requires g == h || (g == FreshGroup(rule.limits, rule.ttl) && SoundGroup(h, rule, before) && Idle(h, before))
    ensures Touch(g, now, rule.limits, message, rule.ttl, token) == Touch(h, now, rule.limits, message, rule.ttl, token)
    ensures SoundGroup(Touch(h, now, rule.limits, message, rule.ttl, token).0, rule, now)
  {
    if g != h { IdleIsFresh(h, rule, before, now); }
    TouchKeepsSound(h, rule, before, now, message, token);
  }

  /** One acquire: unless the bounded limiter is full, both give the same answer. */
  lemma AcquireAgrees(rules: Rules, a: LState, b: LState, before: nat, now: nat, key: string, message: bool)
    requires Agree(rules, a, b, before) && key in rules && 0 < now && before <= now
    ensures var (a', x) := AcquireBounded(a, key, now, rules[key], message);
      var (b', y) := AcquireUnbounded(b, key, now, rules[key], message);
      if x == Full then Agree(rules, a', b, now) else x == y && Agree(rules, a', b', now)
  {
    var kept := if key in a.groups || |a.groups| < CAPACITY then a.groups else Evict(a.groups, now);
    EvictionAgrees(rules, a, kept, b, before, now);
    TouchAgrees(rules, kept, b, now, now, key, message);
  }

  lemma EvictionAgrees(rules: Rules, a: LState, kept: map<string, Group>, b: LState, before: nat, now: nat)
    requires Agree(rules, a, b, before) && 0 < now && before <= now
    requires kept == a.groups || kept == Evict(a.groups, now)
    ensures Agree(rules, LState(kept, b.issued), b, now)
  {
    SoundLater(rules, b.groups, before, now);
    EvictionMirrors(a.groups, kept, b.groups, before, now);
  }

  lemma SoundLater(rules: Rules, groups: map<string, Group>, before: nat, now: nat)
    requires AllSound(rules, groups, before) && before <= now
    ensures AllSound(rules, groups, now)
  {
  }

  lemma EvictionMirrors(a: map<string, Group>, kept: map<string, Group>, b: map<string, Group>, before: nat, now: nat)
    requires Mirrors(a, b, before) && before <= now && (kept == a || kept == Evict(a, now))
    ensures Mirrors(kept, b, now)
  {
  }

  lemma StoreMissing(rules: Rules, a: LState, b: LState, now: nat, key: string, g: Group)
    requires Agree(rules, a, b, now) && key in b.groups && key !in a.groups
    requires SoundGroup(g, rules[key], now) && Idle(g, now)
    ensures Agree(rules, a, b.(groups := b.groups[key := g]), now)
  {
    StoreSound(rules, b.groups, now, key, g);
    StoreMirrors(a.groups, b.groups, now, key, g);
  }

  lemma StoreMirrors(a: map<string, Group>, b: map<string, Group>, now: nat, key: string, g: Group)
    requires Mirrors(a, b, now) && key !in a && Idle(g, now)
    ensures Mirrors(a, b[key := g], now)
  {
  }

  lemma ReleaseKeepsSound(g: Group, rule: Rule, now: nat, token: nat)
    requires SoundGroup(g, rule, now)
    ensures SoundGroup(g.(leases := g.leases - {token}), rule, now)
  {
    SubsetSize((g.leases - {token}).Keys, g.leases.Keys);
  }

  lemma ReleaseAgrees(rules: Rules, a: LState, b: LState, now: nat, key: string, token: nat)
    requires Agree(rules, a, b, now)
    ensures Agree(rules, ReleaseIn(a, key, token), ReleaseIn(b, key, token), now)
  {
    if key in b.groups {
      ReleaseKeepsSound(b.groups[key], rules[key], now, token);
      var g := b.groups[key].(leases := b.groups[key].leases - {token});
      if key in a.groups {
        StoreBoth(rules, a, b, now, key, g, a.issued);
      } else {
        StoreMissing(rules, a, b, now, key, g);
      }
    }
  }

  // ----- Runs --------------------------------------------------------------

  /** Both limiters after a run, the clock, and the two answers of every acquire. */
  datatype Pair = Pair(bounded: LState, unbounded: LState, clock: nat, answers: seq<(Answer, Answer)>)

  /** The unbounded limiter is asked only what the bounded one did not refuse for lack of room. */
  function Both(rules: Rules, p: Pair, op: Op): Pair
    requires op.key in rules
  {
    match op
    case Acquire(key, now, message) =>
      var (a, x) := AcquireBounded(p.bounded, key, now, rules[key], message);
      if x == Full then Pair(a, p.unbounded, now, p.answers + [(Full, Full)])
      else
        var (b, y) := AcquireUnbounded(p.unbounded, key, now, rules[key], message);
        Pair(a, b, now, p.answers + [(x, y)])
    case Release(key, token) =>
      p.(bounded := ReleaseIn(p.bounded, key, token), unbounded := ReleaseIn(p.unbounded, key, token))
  }

  predicate RunOk(rules: Rules, clock: nat, ops: seq<Op>)
    decreases |ops|
  {
    ops == [] ||
    (ops[0].key in rules && (ops[0].Acquire? ==> 0 < ops[0].now && clock <= ops[0].now) &&
     RunOk(rules, if ops[0].Acquire? then ops[0].now else clock, ops[1..]))
  }

  function BothAll(rules: Rules, p: Pair, ops: seq<Op>): Pair
    requires RunOk(rules, p.clock, ops)
    decreases |ops|
  {
    if ops == [] then p else BothAll(rules, Both(rules, p, ops[0]), ops[1..])
  }

  /**
   * Over any run with a monotone clock, every answer the bounded limiter gives
   * other than "full" is the answer of the limiter that never evicts.
   */
  lemma {:induction false} EvictionIsUnobservable(rules: Rules, p: Pair, ops: seq<Op>)
    requires RunOk(rules, p.clock, ops) && Agree(rules, p.bounded, p.unbounded, p.clock)
    requires forall i :: 0 <= i < |p.answers| ==> p.answers[i].0 == p.answers[i].1
    ensures var q := BothAll(rules, p, ops);
      && (forall i :: 0 <= i < |q.answers| ==> q.answers[i].0 == q.answers[i].1)
      && Agree(rules, q.bounded, q.unbounded, q.clock)
    decreases |ops|
  {
    if ops != [] {
      StepAgrees(rules, p, ops[0]);
      if ops[0].Acquire? {
        AcquireAgrees(rules, p.bounded, p.unbounded, p.clock, ops[0].now, ops[0].key, ops[0].message);
      }
      EvictionIsUnobservable(rules, Both(rules, p, ops[0]), ops[1..]);
    }
  }

  // ----- Refusals and delays -----------------------------------------------

  lemma SettleTwice(g: Group, rule: Rule, before: nat, t: nat, u: nat)
    requires Usable(g, rule, before) && before <= t <= u && 0 < t
    ensures Settle(Settle(g, t, rule.limits), u, rule.limits) == Settle(g, u, rule.limits)
  {
    var l := rule.limits;
    RefillTwice(g.messages, t, u, l.messagesPerMinute, l.messageBurst);
    RefillTwice(g.connections, t, u, l.connectionsPerMinute, l.connectionBurst);
    assert Settle(Settle(g, t, l), u, l).leases == Settle(g, u, l).leases;
  }

  /** A refused acquire spends nothing: whatever comes next is answered as if it had never been made. */
  lemma RefusalLeavesNoTrace(g: Group, rule: Rule, before: nat, t: nat, refused: bool, u: nat, message: bool,
                             token: nat)
    requires Usable(g, rule, before) && before <= t <= u && 0 < t
    requires Touch(g, t, rule.limits, refused, rule.ttl, token).1.Wait?
    ensures Touch(Touch(g, t, rule.limits, refused, rule.ttl, token).0, u, rule.limits, message, rule.ttl, token) ==
            Touch(g, u, rule.limits, message, rule.ttl, token)
  {
    SettleTwice(g, rule, before, t, u);
  }

  /** Waiting out the returned delay, undisturbed, satisfies both rate checks; only the lease limit can still refuse. */
  lemma DelaySatisfiesTheRates(g: Group, rule: Rule, before: nat, t: nat, u: nat, message: bool, token: nat)
    requires Usable(g, rule, before) && before <= t && 0 < t
    requires Touch(g, t, rule.limits, message, rule.ttl, token).1.Wait?
    requires u >= t + Touch(g, t, rule.limits, message, rule.ttl, token).1.delay
    ensures var s := Settle(g, u, rule.limits);
      var answer := Touch(g, u, rule.limits, message, rule.ttl, token).1;
      && (rule.limits.connectionsPerMinute > 0 ==> s.connections.level >= TOKEN)
      && (message && rule.limits.messagesPerMinute > 0 ==> s.messages.level >= TOKEN)
      && (answer.Granted? || (answer == Wait(LEASE_WAIT) && 0 < rule.limits.maxConnections <= |s.leases|))
  {
    var l := rule.limits;
    var at := Settle(g, t, l);
    SettleTwice(g, rule, before, t, u);
    if l.connectionsPerMinute > 0 {
      DelayIsExact(at.connections, l.connectionsPerMinute, l.connectionBurst, u - t);
    }
    if message && l.messagesPerMinute > 0 {
      DelayIsExact(at.messages, l.messagesPerMinute, l.messageBurst, u - t);
    }
  }

  // ----- Rate over any interval --------------------------------------------

  datatype Meter = Messages | Connections

  function BucketOf(g: Group, m: Meter): Bucket {
    match m case Messages => g.messages case Connections => g.connections
  }

  function RateOf(l: Limits, m: Meter): nat {
    match m case Messages => l.messagesPerMinute case Connections => l.connectionsPerMinute
  }

  function BurstOf(l: Limits, m: Meter): nat {
    match m case Messages => l.messageBurst case Connections => l.connectionBurst
  }

  /** The acquires granted to one group that the meter counts: every one is a connection, some carry a message. */
  function Admitted(rules: Rules, p: Pair, ops: seq<Op>, key: string, m: Meter): nat
    requires RunOk(rules, p.clock, ops)
    decreases |ops|
  {
    if ops == [] then 0 else
      Charge(rules, p, ops[0], key, m) + Admitted(rules, Both(rules, p, ops[0]), ops[1..], key, m)
  }

  predicate NoLaterThan(ops: seq<Op>, end: nat) {
    forall i :: 0 <= i < |ops| && ops[i].Acquire? ==> ops[i].now <= end
  }

  /** What the group could admit at once at `start`, in token units. */
  function Available(s: LState, key: string, l: Limits, m: Meter, start: nat): int {
    if key in s.groups then Refill(BucketOf(s.groups[key], m), start, RateOf(l, m), BurstOf(l, m)).level
      else Cap(BurstOf(l, m))
  }

  lemma AvailableAtMostBurst(rules: Rules, s: LState, key: string, m: Meter, start: nat)
    requires key in rules && RateOf(rules[key].limits, m) > 0
    requires key in s.groups ==> SoundGroup(s.groups[key], rules[key], start)
    ensures 0 <= Available(s, key, rules[key].limits, m, start) <= Cap(BurstOf(rules[key].limits, m))
  {
    if key in s.groups {
      var b := BucketOf(s.groups[key], m);
      MulMono(0, start - b.updated, RateOf(rules[key].limits, m));
    }
  }

  /** One acquire moves the available units by the refill, minus one token if it is granted and counted. */
  /** The charge as the acquire's answer gives it. */
  function Cost(y: Answer, m: Meter, message: bool): nat {
    if y.Granted? && (m == Connections || message) then TOKEN else 0
  }

  lemma TouchMeters(s: LState, key: string, rule: Rule, m: Meter, start: nat, now: nat, message: bool, gain: int)
    requires key in s.groups ==> SoundGroup(s.groups[key], rule, start)
    requires 0 < start <= now && RateOf(rule.limits, m) > 0 && gain == (now - start) * RateOf(rule.limits, m)
    ensures
      var r := AcquireUnbounded(s, key, now, rule, message);
      Available(r.0, key, rule.limits, m, now) + Cost(r.1, m, message) <=
        Available(s, key, rule.limits, m, start) + gain
  {
    var l, rate := rule.limits, RateOf(rule.limits, m);
    var g := if key in s.groups then s.groups[key] else FreshGroup(l, rule.ttl);
    var b := BucketOf(g, m);
    RefillTwice(b, start, now, rate, BurstOf(l, m));
    var at := BucketOf(Settle(g, now, l), m);
    assert at.level <= Available(s, key, l, m, start) + gain;
    var (s', y) := AcquireUnbounded(s, key, now, rule, message);
    var after := BucketOf(s'.groups[key], m);
    assert after.updated == now;
    assert 0 * rate == 0;
  }

  /** Whether this operation reaches the group, and whether it is an admission the meter counts. */
  predicate Reaches(rules: Rules, p: Pair, op: Op, key: string)
    requires op.key in rules
  {
    op.Acquire? && op.key == key && AcquireBounded(p.bounded, key, op.now, rules[key], op.message).1 != Full
  }

  function Charge(rules: Rules, p: Pair, op: Op, key: string, m: Meter): nat
    requires op.key in rules
  {
    if op.Acquire? && op.key == key && (m == Connections || op.message) &&
       AcquireBounded(p.bounded, key, op.now, rules[key], op.message).1.Granted? then 1 else 0
  }

  /** What one operation does to a group's account: sound from `next` on, and charged for what it admitted. */
  ghost predicate Metered(rules: Rules, p: Pair, q: Pair, key: string, m: Meter, start: nat, next: nat, charge: nat)
    requires key in rules
  {
    var l := rules[key].limits;
    && start <= next <= q.clock
    && (key in q.unbounded.groups ==> SoundGroup(q.unbounded.groups[key], rules[key], next))
    && Available(q.unbounded, key, l, m, next) + TOKEN * charge
       <= Available(p.unbounded, key, l, m, start) + (next - start) * RateOf(l, m)
  }

  /** The group may be untouched, or lose leases: its buckets stay as they are. */
  lemma Untouched(rules: Rules, p: Pair, q: Pair, key: string, m: Meter, start: nat)
    requires key in rules && start <= q.clock
    requires key in p.unbounded.groups <==> key in q.unbounded.groups
    requires key in p.unbounded.groups ==>
      SoundGroup(q.unbounded.groups[key], rules[key], start) &&
      BucketOf(p.unbounded.groups[key], m) == BucketOf(q.unbounded.groups[key], m)
    ensures Metered(rules, p, q, key, m, start, start, 0)
  {}

  lemma ReleaseMeters(rules: Rules, p: Pair, op: Op, key: string, m: Meter, start: nat)
    requires op.Release? && op.key in rules && key in rules && start <= p.clock
    requires key in p.unbounded.groups ==> SoundGroup(p.unbounded.groups[key], rules[key], start)
    ensures Metered(rules, p, Both(rules, p, op), key, m, start, start, 0)
  {
    if key in p.unbounded.groups { ReleaseKeepsSound(p.unbounded.groups[key], rules[key], start, op.token); }
    Untouched(rules, p, Both(rules, p, op), key, m, start);
  }

  lemma ElsewhereMeters(rules: Rules, p: Pair, op: Op, key: string, m: Meter, start: nat)
    requires op.Acquire? && op.key in rules && key in rules && start <= op.now && !Reaches(rules, p, op, key)
    requires key in p.unbounded.groups ==> SoundGroup(p.unbounded.groups[key], rules[key], start)
    ensures Metered(rules, p, Both(rules, p, op), key, m, start, start, 0)
  {
    var q := Both(rules, p, op);
    assert op.key == key ==> q.unbounded == p.unbounded;
    assert op.key != key ==> (key in q.unbounded.groups <==> key in p.unbounded.groups);
    assert key in q.unbounded.groups ==> q.unbounded.groups[key] == p.unbounded.groups[key];
    Untouched(rules, p, q, key, m, start);
  }

  lemma ReachEffect(rules: Rules, p: Pair, op: Op, key: string, m: Meter)
    requires op.key in rules && Reaches(rules, p, op, key) && 0 < p.clock <= op.now
    requires Agree(rules, p.bounded, p.unbounded, p.clock)
    ensures var q := Both(rules, p, op); var (u, y) := AcquireUnbounded(p.unbounded, key, op.now, rules[key],
                                                                        op.message);
      && q.unbounded == u && q.clock == op.now
      && key in u.groups && SoundGroup(u.groups[key], rules[key], op.now)
      && Charge(rules, p, op, key, m) == if y.Granted? && (m == Connections || op.message) then 1 else 0
  {
    AcquireAgrees(rules, p.bounded, p.unbounded, p.clock, op.now, key, op.message);
  }

  lemma ReachLevel(rules: Rules, p: Pair, op: Op, key: string, m: Meter, start: nat)
    requires op.key in rules && Reaches(rules, p, op, key) && 0 < start <= p.clock <= op.now
    requires Agree(rules, p.bounded, p.unbounded, p.clock) && RateOf(rules[key].limits, m) > 0
    requires key in p.unbounded.groups ==> SoundGroup(p.unbounded.groups[key], rules[key], start)
    ensures
      var l := rules[key].limits;
      Available(Both(rules, p, op).unbounded, key, l, m, op.now) + TOKEN * Charge(rules, p, op, key, m)
      <= Available(p.unbounded, key, l, m, start) + (op.now - start) * RateOf(l, m)
  {
    var r := AcquireUnbounded(p.unbounded, key, op.now, rules[key], op.message);
    var gain := (op.now - start) * RateOf(rules[key].limits, m);
    assert Both(rules, p, op).unbounded == r.0 && TOKEN * Charge(rules, p, op, key, m) == Cost(r.1, m, op.message) by {
      ReachEffect(rules, p, op, key, m);
    }
    TouchMeters(p.unbounded, key, rules[key], m, start, op.now, op.message, gain);
  }

  lemma ReachMeters(rules: Rules, p: Pair, op: Op, key: string, m: Meter, start: nat)
    requires op.key in rules && Reaches(rules, p, op, key) && 0 < start <= p.clock <= op.now
    requires Agree(rules, p.bounded, p.unbounded, p.clock) && RateOf(rules[key].limits, m) > 0
    requires key in p.unbounded.groups ==> SoundGroup(p.unbounded.groups[key], rules[key], start)
    ensures Metered(rules, p, Both(rules, p, op), key, m, start, op.now, Charge(rules, p, op, key, m))
  {
    ReachEffect(rules, p, op, key, m);
    ReachLevel(rules, p, op, key, m, start);
  }

  lemma StepAgrees(rules: Rules, p: Pair, op: Op)
    requires op.key in rules && (op.Acquire? ==> 0 < op.now && p.clock <= op.now)
    requires Agree(rules, p.bounded, p.unbounded, p.clock)
    ensures var q := Both(rules, p, op); Agree(rules, q.bounded, q.unbounded, q.clock)
  {
    if op.Acquire? {
      AcquireAgrees(rules, p.bounded, p.unbounded, p.clock, op.now, op.key, op.message);
    } else {
      ReleaseAgrees(rules, p.bounded, p.unbounded, p.clock, op.key, op.token);
    }
  }

  lemma StepMeters(rules: Rules, p: Pair, op: Op, key: string, m: Meter, start: nat) returns (next: nat)
    requires op.key in rules && (op.Acquire? ==> 0 < op.now && p.clock <= op.now)
    requires Agree(rules, p.bounded, p.unbounded, p.clock)
    requires key in rules && RateOf(rules[key].limits, m) > 0 && 0 < start <= p.clock
    requires key in p.unbounded.groups ==> SoundGroup(p.unbounded.groups[key], rules[key], start)
    ensures Metered(rules, p, Both(rules, p, op), key, m, start, next, Charge(rules, p, op, key, m))
  {
    next := start;
    if op.Release? {
      ReleaseMeters(rules, p, op, key, m, start);
    } else if Reaches(rules, p, op, key) {
      ReachMeters(rules, p, op, key, m, start);
      next := op.now;
    } else {
      ElsewhereMeters(rules, p, op, key, m, start);
    }
  }

  lemma CombineCharges(charge: nat, rest: nat, here: int, there: int, start: nat, next: nat, end: nat, rate: nat)
    requires start <= next <= end
    requires there + TOKEN * charge <= here + (next - start) * rate
    requires TOKEN * rest <= there + (end - next) * rate
    ensures TOKEN * (charge + rest) <= here + (end - start) * rate
  {
    MulAdd(next - start, end - next, rate);
  }

  /**
   * In any stretch of a run between `start` and `end` a group admits at most
   * burst + rate * (end - start) / minute messages, and likewise connections.
   */
  lemma {:induction false} RateBound(rules: Rules, p: Pair, ops: seq<Op>, key: string, m: Meter, start: nat, end: nat)
    requires RunOk(rules, p.clock, ops) && Agree(rules, p.bounded, p.unbounded, p.clock) && NoLaterThan(ops, end)
    requires key in rules && RateOf(rules[key].limits, m) > 0 && 0 < start <= p.clock <= end
    requires key in p.unbounded.groups ==> SoundGroup(p.unbounded.groups[key], rules[key], start)
    ensures TOKEN * Admitted(rules, p, ops, key, m)
      <= Available(p.unbounded, key, rules[key].limits, m, start) + (end - start) * RateOf(rules[key].limits, m)
    decreases |ops|
  {
    var rate := RateOf(rules[key].limits, m);
    if ops == [] {
      AvailableAtMostBurst(rules, p.unbounded, key, m, start);
      MulMono(0, end - start, rate);
    } else {
      var next := StepMeters(rules, p, ops[0], key, m, start);
      var q, l := Both(rules, p, ops[0]), rules[key].limits;
      StepAgrees(rules, p, ops[0]);
      assert NoLaterThan(ops[1..], end);
      RateBound(rules, q, ops[1..], key, m, next, end);
      CombineCharges(Charge(rules, p, ops[0], key, m), Admitted(rules, q, ops[1..], key, m),
                     Available(p.unbounded, key, l, m, start), Available(q.unbounded, key, l, m, next), start, next,
                     end, rate);
    }
  }

  /** The same bound from the burst alone, for a run that starts anywhere. */
  lemma AdmittedWithinBurstPlusRate(rules: Rules, p: Pair, ops: seq<Op>, key: string, m: Meter, end: nat)
    requires RunOk(rules, p.clock, ops) && Agree(rules, p.bounded, p.unbounded, p.clock) && NoLaterThan(ops, end)
    requires key in rules && RateOf(rules[key].limits, m) > 0 && 0 < p.clock <= end
    ensures TOKEN * Admitted(rules, p, ops, key, m)
      <= Cap(BurstOf(rules[key].limits, m)) + (end - p.clock) * RateOf(rules[key].limits, m)
  {
    RateBound(rules, p, ops, key, m, p.clock, end);
    AvailableAtMostBurst(rules, p.unbounded, key, m, p.clock);
  }

  // ----- The limiter object ------------------------------------------------

  class MemoryLimiter {
    var groups: map<string, Group>
    var issued: nat

    constructor ()
      ensures groups == map[] && issued == 0
    {
      groups, issued := map[], 0;
    }

    function View(): LState
      reads this
    {
      LState(groups, issued)
    }

    method EvictIdle(now: nat)
      modifies this`groups
      ensures groups == Evict(old(groups), now)
    {
      ghost var was := groups;
      var todo := groups.Keys;
      while todo != {}
        invariant todo <= was.Keys
        invariant groups == map k | k in was && (k in todo || !Idle(was[k], now)) :: was[k]
        decreases todo
      {
        var k :| k in todo;
        todo := todo - {k};
        if Idle(groups[k], now) {
          groups := groups - {k};
        }
      }
    }

    method DropExpired(leases: map<nat, nat>, now: nat) returns (live: map<nat, nat>)
      ensures live == map t | t in leases && leases[t] > now :: leases[t]
    {
      live := leases;
      var todo := leases.Keys;
      while todo != {}
        invariant todo <= leases.Keys
        invariant live == map t | t in leases && (t in todo || leases[t] > now) :: leases[t]
        decreases todo
      {
        var t :| t in todo;
        todo := todo - {t};
        if leases[t] <= now {
          live := live - {t};
        }
      }
    }

    method Acquire(key: string, now: nat, rule: Rule, message: bool, cancelled: bool) returns (answer: Answer)
      modifies this
      ensures cancelled ==> answer == Cancelled && View() == old(View())
      ensures !cancelled ==> (View(), answer) == AcquireBounded(old(View()), key, now, rule, message)
    {
      if cancelled {
        return Cancelled;
      }
      var l := rule.limits;
      var g;
      if key in groups {
        g := groups[key];
      } else {
        if |groups| >= CAPACITY {
          EvictIdle(now);
        }
        if |groups| >= CAPACITY {
          return Full;
        }
        g := FreshGroup(l, rule.ttl);
      }
      answer := TouchEntry(g, key, now, rule, message);
    }

    method TouchEntry(found: Group, key: string, now: nat, rule: Rule, message: bool) returns (answer: Answer)
      modifies this
      ensures (View(), answer) == TouchIn(old(groups), old(issued), found, key, now, rule, message)
    {
      var g;
      g, answer := TouchGroup(found, now, rule, message, issued + 1);
      groups := groups[key := g];
      if answer.Granted? {
        issued := issued + 1;
      }
    }

    method TouchGroup(found: Group, now: nat, rule: Rule, message: bool, token: nat) returns (g: Group, answer: Answer)
      ensures (g, answer) == Touch(found, now, rule.limits, message, rule.ttl, token)
    {
      var l := rule.limits;
      var live := DropExpired(found.leases, now);
      g := found.(last := now, leases := live,
                  messages := Refill(found.messages, now, l.messagesPerMinute, l.messageBurst),
                  connections := Refill(found.connections, now, l.connectionsPerMinute, l.connectionBurst));
      var wait := Delay(g.connections, l.connectionsPerMinute);
      if message {
        wait := Max(wait, Delay(g.messages, l.messagesPerMinute));
      }
      if l.maxConnections > 0 && |g.leases| >= l.maxConnections {
        wait := Max(wait, LEASE_WAIT);
      }
      assert g == Settle(found, now, l) && wait == WaitFor(g, l, message);
      if wait > 0 {
        answer := Wait(wait);
      } else {
        if message && l.messagesPerMinute > 0 {
          g := g.(messages := g.messages.(level := g.messages.level - TOKEN));
        }
        if l.connectionsPerMinute > 0 {
          g := g.(connections := g.connections.(level := g.connections.level - TOKEN));
        }
        g := g.(leases := g.leases[token := now + rule.ttl]);
        answer := Granted(token);
      }
    }

    method Release(key: string, token: nat)
      modifies this`groups
      ensures View() == ReleaseIn(old(View()), key, token)
    {
      if key in groups {
        groups := groups[key := groups[key].(leases := groups[key].leases - {token})];
      }
    }
  }
}
