/**
 * The MTA-STS policy cache: a lookup captures the cached policy under the
 * mutex, fetches without it, and commits under it again. Lookups of one domain
 * may overlap in any way; DNS and HTTPS answers are arbitrary.
 */
module MtaSts {
  import opened Common
  import Text

  datatype Policy = Policy(id: string, mode: string, mx: seq<string>, maxAge: int, expiresAt: int)

  datatype Config = Config(ttl: int, minRetry: nat, maxRetry: nat, need: int)

  datatype Rollover = Rollover(policy: Policy, confirmations: int)

  // ----- Retry delay ---------------------------------------------------------

  function Pow2(k: nat): nat { if k == 0 then 1 else 2 * Pow2(k - 1) }

  /** What the documentation of the back-off promises. */
  function Doubling(cfg: Config, failures: nat): int
    requires failures >= 1
  {
    Min(cfg.minRetry * Pow2(failures - 1), cfg.maxRetry)
  }

  /** The loop's value: doubled while below half the maximum, then the maximum at once. */
  function Doubled(cfg: Config, steps: nat): int {
    if steps == 0 then cfg.minRetry
    else
      var d := Doubled(cfg, steps - 1);
      if d >= cfg.maxRetry / 2 then cfg.maxRetry else 2 * d
  }

  function RetryDelay(cfg: Config, failures: int): int {
    if failures <= 0 then cfg.minRetry
    else
      var d := Doubled(cfg, failures - 1);
      if d > cfg.maxRetry then cfg.maxRetry else if d <= 0 then cfg.minRetry else d
  }

  /** Once at the maximum, the loop stays there. */
  lemma {:induction false} DoubledSaturates(cfg: Config, i: nat, j: nat)
    requires i <= j && Doubled(cfg, i) >= cfg.maxRetry / 2
    ensures j > i ==> Doubled(cfg, j) == cfg.maxRetry
    decreases j
  {
    if j > i { DoubledSaturates(cfg, i, j - 1); }
  }

  method ComputeRetryDelay(cfg: Config, failures: int) returns (delay: int)
    ensures delay == RetryDelay(cfg, failures)
  {
    if failures <= 0 { return cfg.minRetry; }
    delay := cfg.minRetry;
    var i := 1;
    while i < failures
      invariant 1 <= i <= failures && delay == Doubled(cfg, i - 1)
    {
      if delay >= cfg.maxRetry / 2 {
        DoubledSaturates(cfg, i - 1, failures - 1);
        delay := cfg.maxRetry;
        break;
      }
      delay := delay * 2;
      i := i + 1;
    }
    if delay > cfg.maxRetry { return cfg.maxRetry; }
    if delay <= 0 { return cfg.minRetry; }
  }

  /** The exception: the doubled delay would land exactly one short of the maximum. */
  predicate OneShort(cfg: Config, failures: int) {
    failures >= 2 && cfg.minRetry * Pow2(failures - 1) == cfg.maxRetry - 1
  }

  /** The first delay doubled without end, by addition. */
  function Exact(min: int, steps: nat): int {
    if steps == 0 then min else Exact(min, steps - 1) + Exact(min, steps - 1)
  }

  lemma {:induction false} ExactIsProduct(min: int, steps: nat)
    ensures Exact(min, steps) == min * Pow2(steps) && Pow2(steps) >= 1
  {
    if steps > 0 { ExactIsProduct(min, steps - 1); }
  }

  lemma {:induction false} ExactGrows(min: int, steps: nat)
    requires min > 0
    ensures Exact(min, steps) >= min
  {
    if steps > 0 { ExactGrows(min, steps - 1); }
  }

  lemma {:induction false} DoubledIsExact(cfg: Config, steps: nat)
    requires cfg.minRetry > 0 && cfg.maxRetry > 0
    ensures
      var exact := Exact(cfg.minRetry, steps);
      && (steps >= 1 && exact >= cfg.maxRetry - 1 ==> Doubled(cfg, steps) == cfg.maxRetry)
      && (steps == 0 || exact < cfg.maxRetry - 1 ==> Doubled(cfg, steps) == exact)
  {
    if steps > 0 {
      DoubledIsExact(cfg, steps - 1);
      ExactGrows(cfg.minRetry, steps - 1);
    }
  }

  lemma DoubledIsDoubling(cfg: Config, steps: nat)
    requires cfg.minRetry > 0 && cfg.maxRetry > 0
    ensures Pow2(steps) >= 1
    ensures
      var exact := cfg.minRetry * Pow2(steps);
      steps >= 1 && exact >= cfg.maxRetry - 1 ==> Doubled(cfg, steps) == cfg.maxRetry
    ensures
      var exact := cfg.minRetry * Pow2(steps);
      steps == 0 || exact < cfg.maxRetry - 1 ==> Doubled(cfg, steps) == exact
  {
    ExactIsProduct(cfg.minRetry, steps);
    DoubledIsExact(cfg, steps);
  }

  lemma Positive(a: nat, b: nat)
    requires a > 0 && b > 0
    ensures a * b > 0
  {
  }

  /** The back-off is the promised doubling, except exactly one step short of an odd maximum. */
  lemma RetryDelayIsDoubling(cfg: Config, failures: nat)
    requires cfg.minRetry > 0 && cfg.maxRetry > 0 && failures >= 1
    ensures RetryDelay(cfg, failures) == Doubling(cfg, failures) <==> !OneShort(cfg, failures)
    ensures OneShort(cfg, failures) ==> RetryDelay(cfg, failures) == Doubling(cfg, failures) + 1
  {
    DoubledIsDoubling(cfg, failures - 1);
    Positive(cfg.minRetry, Pow2(failures - 1));
  }

  /** With the delays of one second and five minutes, counted in nanoseconds, the exception never occurs. */
  lemma DefaultDelaysAreDoubling(cfg: Config, failures: nat)
    requires cfg.minRetry == 1_000_000_000 && cfg.maxRetry == 300_000_000_000 && failures >= 1
    ensures RetryDelay(cfg, failures) == Doubling(cfg, failures)
  {
    RetryDelayIsDoubling(cfg, failures);
  }

  lemma OneShortHappens()
    ensures
      var cfg := Config(60, 1, 5, 2);
      RetryDelay(cfg, 3) == 5 && Doubling(cfg, 3) == 4
  {
    var cfg := Config(60, 1, 5, 2);
    assert Pow2(2) == 4;
    assert Doubled(cfg, 1) == 2 && Doubled(cfg, 2) == 5;
  }

  // ----- One domain's entry ----------------------------------------------------

  /** The four maps of the resolver, at one domain. */
  datatype Entry = Entry(cache: Option<Policy>, failures: int, retryAt: Option<int>, rollover: Option<Rollover>)

  /** What a lookup carries from its first mutex section to its second. */
  datatype Call = Call(now: int, id: Option<string>, stale: Option<Policy>)

  datatype Opening = Answer(policy: Policy) | Fetch(call: Call)

  predicate NewId(e: Entry, id: Option<string>) {
    e.cache.Some? && id.Some? && e.cache.value.id != "" && id.value != e.cache.value.id
  }

  function Open(e: Entry, now: int, id: Option<string>): Opening {
    if e.cache.None? then Fetch(Call(now, id, None))
    else if now < e.cache.value.expiresAt && !NewId(e, id) then Answer(e.cache.value)
    else if !NewId(e, id) && e.retryAt.Some? && now < e.retryAt.value then Answer(e.cache.value)
    else Fetch(Call(now, id, e.cache))
  }

  /** A published id that differs from the cached one clears the back-off. */
  function Opened(e: Entry, id: Option<string>): Entry {
    if NewId(e, id) then e.(retryAt := None, failures := 0) else e
  }

  function Failed(cfg: Config, e: Entry, c: Call): Entry {
    if c.stale.None? then e
    else e.(failures := e.failures + 1, retryAt := Some(c.now + RetryDelay(cfg, e.failures + 1)))
  }

  function Stamped(cfg: Config, c: Call, p: Policy): Policy {
    p.(expiresAt := Min(c.now + p.maxAge, c.now + cfg.ttl), id := if c.id.Some? then c.id.value else "")
  }

  /** The captured policy and the fetched one have different ids, so the change must be confirmed. */
  predicate NeedsConfirmation(c: Call, p: Policy) {
    c.stale.Some? && c.stale.value.id != "" && p.id != "" && p.id != c.stale.value.id
  }

  function Confirmations(e: Entry, p: Policy): int {
    if e.rollover.Some? && e.rollover.value.policy.id == p.id then e.rollover.value.confirmations + 1 else 1
  }

  predicate SeenEnough(cfg: Config, e: Entry, p: Policy) {
    cfg.need <= 1 || (e.rollover.Some? && e.rollover.value.policy.id == p.id && Confirmations(e, p) >= cfg.need)
  }

  predicate Accepts(cfg: Config, e: Entry, c: Call, p: Policy) {
    !NeedsConfirmation(c, p) || SeenEnough(cfg, e, p)
  }

  /** p carries the id and the expiry already. */
  function Committed(cfg: Config, e: Entry, c: Call, p: Policy): Entry {
    if Accepts(cfg, e, c, p) then Entry(Some(p), 0, None, None)
    else Entry(e.cache, 0, None, Some(Rollover(p, Confirmations(e, p))))
  }

  function Finished(cfg: Config, e: Entry, c: Call, fetched: Option<Policy>): Entry {
    if fetched.None? then Failed(cfg, e, c) else Committed(cfg, e, c, Stamped(cfg, c, fetched.value))
  }

  // ----- Overlapping lookups of one domain ---------------------------------------

  /** What has happened so far: an id published, a successful fetch with its id, a failed refresh. */
  datatype Outcome = IdChanged | Saw(id: string) | Missed(at: int)

  datatype State = State(entry: Entry, calls: map<nat, Call>, log: seq<Outcome>)

  datatype Event = Begin(t: nat, now: int, id: Option<string>) | End(t: nat, fetched: Option<Policy>)

  predicate Enabled(s: State, e: Event) {
    match e
    case Begin(t, _, _) => t !in s.calls
    case End(t, _) => t in s.calls
  }

  function Next(cfg: Config, s: State, e: Event): State
    requires Enabled(s, e)
  {
    match e
    case Begin(t, now, id) =>
      var opening := Open(s.entry, now, id);
      State(Opened(s.entry, id), if opening.Fetch? then s.calls[t := opening.call] else s.calls,
            if NewId(s.entry, id) then s.log + [IdChanged] else s.log)
    case End(t, fetched) =>
      var c := s.calls[t];
      State(Finished(cfg, s.entry, c, fetched), s.calls - {t},
            if fetched.Some? then s.log + [Saw(Stamped(cfg, c, fetched.value).id)]
            else if c.stale.Some? then s.log + [Missed(c.now)] else s.log)
  }

  ghost predicate RunEnabled(cfg: Config, s: State, es: seq<Event>)
    decreases |es|
  {
    es == [] || (Enabled(s, es[0]) && RunEnabled(cfg, Next(cfg, s, es[0]), es[1..]))
  }

  ghost function RunAll(cfg: Config, s: State, es: seq<Event>): State
    requires RunEnabled(cfg, s, es)
    decreases |es|
  {
    if es == [] then s else RunAll(cfg, Next(cfg, s, es[0]), es[1..])
  }

  const Fresh: State := State(Entry(None, 0, None, None), map[], [])

  /** How many of the latest successful fetches saw this id, failures and published ids in between not counted. */
  function Streak(log: seq<Outcome>, id: string): nat {
    if log == [] then 0
    else
      var n := |log| - 1;
      if log[n] == Saw(id) then Streak(log[..n], id) + 1
      else if log[n].Saw? then 0 else Streak(log[..n], id)
  }

  /** Refreshes failed since the last success or newly published id. */
  function Misses(log: seq<Outcome>): nat {
    if log == [] || !log[|log| - 1].Missed? then 0 else Misses(log[..|log| - 1]) + 1
  }

  ghost predicate Inv(cfg: Config, s: State) {
    && (s.entry.rollover.Some? ==>
          var r := s.entry.rollover.value;
          1 <= r.confirmations < cfg.need && r.confirmations <= Streak(s.log, r.policy.id))
    && s.entry.failures == Misses(s.log)
    && s.entry.retryAt == (if Misses(s.log) == 0 then None
                           else Some(s.log[|s.log| - 1].at + RetryDelay(cfg, Misses(s.log))))
  }

  lemma LogStep(log: seq<Outcome>, o: Outcome, id: string)
    ensures Streak(log + [o], id) ==
      (if o == Saw(id) then Streak(log, id) + 1 else if o.Saw? then 0 else Streak(log, id))
    ensures Misses(log + [o]) == if o.Missed? then Misses(log) + 1 else 0
  {
    assert (log + [o])[..|log|] == log;
  }

  lemma BeginKeepsInvariant(cfg: Config, s: State, e: Event)
    requires Inv(cfg, s) && Enabled(s, e) && e.Begin?
    ensures Inv(cfg, Next(cfg, s, e))
  {
    var id := if s.entry.rollover.Some? then s.entry.rollover.value.policy.id else "";
    LogStep(s.log, IdChanged, id);
  }

  lemma MissKeepsInvariant(cfg: Config, s: State, t: nat)
    requires Inv(cfg, s) && t in s.calls
    ensures Inv(cfg, Next(cfg, s, End(t, None)))
  {
    var n := Next(cfg, s, End(t, None));
    var o := Missed(s.calls[t].now);
    var id := if s.entry.rollover.Some? then s.entry.rollover.value.policy.id else "";
    LogStep(s.log, o, id);
    if s.calls[t].stale.Some? {
      assert n.log == s.log + [o] && n.log[|n.log| - 1] == o;
    }
  }

  lemma CommitKeepsInvariant(cfg: Config, s: State, t: nat, fetched: Policy)
    requires Inv(cfg, s) && t in s.calls
    ensures Inv(cfg, Next(cfg, s, End(t, Some(fetched))))
  {
    var p := Stamped(cfg, s.calls[t], fetched);
    LogStep(s.log, Saw(p.id), p.id);
  }

  lemma StepKeepsInvariant(cfg: Config, s: State, e: Event)
    requires Inv(cfg, s) && Enabled(s, e)
    ensures Inv(cfg, Next(cfg, s, e))
  {
    match e
    case Begin(_, _, _) => BeginKeepsInvariant(cfg, s, e);
    case End(t, None) => MissKeepsInvariant(cfg, s, t);
    case End(t, Some(fetched)) => CommitKeepsInvariant(cfg, s, t, fetched);
  }

  lemma {:induction false} RunKeepsInvariant(cfg: Config, s: State, es: seq<Event>)
    requires Inv(cfg, s) && RunEnabled(cfg, s, es)
    ensures Inv(cfg, RunAll(cfg, s, es))
    decreases |es|
  {
    if es != [] {
      StepKeepsInvariant(cfg, s, es[0]);
      RunKeepsInvariant(cfg, Next(cfg, s, es[0]), es[1..]);
    }
  }

  /** The commit puts a policy with another nonempty id in place of one with a nonempty id. */
  predicate Replaces(cfg: Config, s: State, t: nat, fetched: Policy)
    requires t in s.calls
  {
    var p := Stamped(cfg, s.calls[t], fetched);
    s.entry.cache.Some? && s.entry.cache.value.id != "" && p.id != "" && p.id != s.entry.cache.value.id &&
    Next(cfg, s, End(t, Some(fetched))).entry.cache == Some(p)
  }

  /**
   * On every run of overlapping lookups: a commit that captured a policy with a different nonempty id replaces the
   * cached id only after the required number of successful fetches in a row showed the new one, this fetch included.
   */
  lemma RolloverIsConfirmed(cfg: Config, es: seq<Event>, t: nat, fetched: Policy)
    requires RunEnabled(cfg, Fresh, es) && t in RunAll(cfg, Fresh, es).calls
    requires
      var s := RunAll(cfg, Fresh, es);
      Replaces(cfg, s, t, fetched) && NeedsConfirmation(s.calls[t], Stamped(cfg, s.calls[t], fetched))
    ensures
      var s := RunAll(cfg, Fresh, es);
      var p := Stamped(cfg, s.calls[t], fetched);
      Streak(Next(cfg, s, End(t, Some(fetched))).log, p.id) >= Max(1, cfg.need)
  {
    RunKeepsInvariant(cfg, Fresh, es);
    var s := RunAll(cfg, Fresh, es);
    var p := Stamped(cfg, s.calls[t], fetched);
    LogStep(s.log, Saw(p.id), p.id);
  }

  /** A lookup that no other one overlaps, after any earlier run: a direct replacement is always confirmed. */
  lemma UninterruptedLookupConfirms(cfg: Config, es: seq<Event>, t: nat, now: int, id: Option<string>, fetched: Policy)
    requires RunEnabled(cfg, Fresh, es) && Enabled(RunAll(cfg, Fresh, es), Begin(t, now, id))
    ensures
      var s := Next(cfg, RunAll(cfg, Fresh, es), Begin(t, now, id));
      t in s.calls && Replaces(cfg, s, t, fetched) ==>
        Streak(Next(cfg, s, End(t, Some(fetched))).log, Stamped(cfg, s.calls[t], fetched).id) >= Max(1, cfg.need)
  {
    RunKeepsInvariant(cfg, Fresh, es);
    var s := Next(cfg, RunAll(cfg, Fresh, es), Begin(t, now, id));
    StepKeepsInvariant(cfg, RunAll(cfg, Fresh, es), Begin(t, now, id));
    if t in s.calls {
      var p := Stamped(cfg, s.calls[t], fetched);
      LogStep(s.log, Saw(p.id), p.id);
    }
  }

  /**
   * With too few sightings of the new id, its policy is cached exactly when the
   * call captured no different nonempty id.
   */
  lemma UnconfirmedIffNothingDiffersFromCapture(cfg: Config, es: seq<Event>, t: nat, fetched: Policy)
    requires RunEnabled(cfg, Fresh, es) && t in RunAll(cfg, Fresh, es).calls
    requires
      var s := RunAll(cfg, Fresh, es);
      var p := Stamped(cfg, s.calls[t], fetched);
      s.entry.cache != Some(p) && Streak(s.log, p.id) + 1 < cfg.need
    ensures
      var s := RunAll(cfg, Fresh, es);
      var p := Stamped(cfg, s.calls[t], fetched);
      Next(cfg, s, End(t, Some(fetched))).entry.cache == Some(p) <==>
      (s.calls[t].stale.None? || s.calls[t].stale.value.id == "" || p.id == "" || p.id == s.calls[t].stale.value.id)
  {
    RunKeepsInvariant(cfg, Fresh, es);
  }

  /** Two lookups that both start from an empty cache: the second one replaces the first one's policy unconfirmed. */
  lemma OverlapSkipsConfirmation()
    ensures
      var cfg, p := Config(3600, 1, 300, 2), Policy("", "enforce", [], 100, 0);
      var es := [Begin(1, 0, Some("a")), Begin(2, 0, Some("b")), End(1, Some(p))];
      RunEnabled(cfg, Fresh, es) && 2 in RunAll(cfg, Fresh, es).calls &&
      Replaces(cfg, RunAll(cfg, Fresh, es), 2, p) && Streak(RunAll(cfg, Fresh, es).log, "b") == 0
  {
    var cfg, p := Config(3600, 1, 300, 2), Policy("", "enforce", [], 100, 0);
    var es := [Begin(1, 0, Some("a")), Begin(2, 0, Some("b")), End(1, Some(p))];
    var s1 := Next(cfg, Fresh, es[0]);
    var s2 := Next(cfg, s1, es[1]);
    var s3 := Next(cfg, s2, es[2]);
    ThreeSteps(cfg, Fresh, es, s1, s2, s3);
    assert s3.log == [Saw("a")] && s3.log[..0] == [];
  }

  lemma ThreeSteps(cfg: Config, s: State, es: seq<Event>, s1: State, s2: State, s3: State)
    requires |es| == 3 && Enabled(s, es[0]) && s1 == Next(cfg, s, es[0])
    requires Enabled(s1, es[1]) && s2 == Next(cfg, s1, es[1]) && Enabled(s2, es[2]) && s3 == Next(cfg, s2, es[2])
    ensures RunEnabled(cfg, s, es) && RunAll(cfg, s, es) == s3
  {
    var b, c := es[1..], es[1..][1..];
    assert b[0] == es[1] && c[0] == es[2] && c[1..] == [];
    assert RunEnabled(cfg, s3, c[1..]) && RunAll(cfg, s3, c[1..]) == s3;
    assert RunEnabled(cfg, s2, c) && RunAll(cfg, s2, c) == s3;
    assert RunEnabled(cfg, s1, b) && RunAll(cfg, s1, b) == s3;
  }

  /**
   * On every run, after k failed refreshes in a row the next one waits for the
   * k-th delay; until then the cached policy is served.
   */
  lemma WaitAfterMisses(cfg: Config, es: seq<Event>)
    requires RunEnabled(cfg, Fresh, es) && cfg.minRetry > 0 && cfg.maxRetry > 0
    requires Misses(RunAll(cfg, Fresh, es).log) > 0
    ensures
      var s := RunAll(cfg, Fresh, es);
      var k, last := Misses(s.log), s.log[|s.log| - 1].at;
      && s.entry.retryAt == Some(last + RetryDelay(cfg, k))
      && (RetryDelay(cfg, k) == Doubling(cfg, k) <==> !OneShort(cfg, k))
      && forall now, id :: s.entry.cache.Some? && now < last + RetryDelay(cfg, k) && !NewId(s.entry, id) ==>
           Open(s.entry, now, id) == Answer(s.entry.cache.value)
  {
    RunKeepsInvariant(cfg, Fresh, es);
    RetryDelayIsDoubling(cfg, Misses(RunAll(cfg, Fresh, es).log));
  }

  // ----- The resolver ------------------------------------------------------------

  class Resolver {
    const cfg: Config
    var cache: map<string, Policy>
    var retryFailures: map<string, int>
    var retryAt: map<string, int>
    var rollovers: map<string, Rollover>

    constructor (cfg: Config)
      ensures this.cfg == cfg && forall d :: EntryOf(d) == Fresh.entry
    {
      this.cfg := cfg;
      cache, retryFailures, retryAt, rollovers := map[], map[], map[], map[];
    }

    function EntryOf(d: string): Entry
      reads this
    {
      Entry(if d in cache then Some(cache[d]) else None,
            if d in retryFailures then retryFailures[d] else 0,
            if d in retryAt then Some(retryAt[d]) else None,
            if d in rollovers then Some(rollovers[d]) else None)
    }

    /** From the call to the fetch; None for an empty domain. */
    method BeginLookup(raw: string, now: int, id: Option<string>) returns (domain: string, r: Option<Opening>)
      modifies this
      ensures domain == Text.Lower(Text.TrimSpace(raw)) && (r.None? <==> domain == "")
      ensures r.Some? ==>
        r.value == Open(old(EntryOf(domain)), now, id) && EntryOf(domain) == Opened(old(EntryOf(domain)), id)
      ensures forall d :: d != domain || r.None? ==> EntryOf(d) == old(EntryOf(d))
    {
      domain := Text.Lower(Text.TrimSpace(raw));
      if domain == "" { return domain, None; }
      if domain !in cache { return domain, Some(Fetch(Call(now, id, None))); }
      var p := cache[domain];
      var refreshById := id.Some? && p.id != "" && id.value != p.id;
      if now < p.expiresAt && !refreshById { return domain, Some(Answer(p)); }
      if !refreshById {
        if domain in retryAt && now < retryAt[domain] { return domain, Some(Answer(p)); }
      } else {
        retryAt := retryAt - {domain};
        retryFailures := retryFailures - {domain};
      }
      return domain, Some(Fetch(Call(now, id, Some(p))));
    }

    /** From the fetch's result to the answer; None is the error returned when there is no policy to fall back on. */
    method EndLookup(domain: string, c: Call, fetched: Option<Policy>) returns (r: Option<Policy>)
      modifies this
      ensures EntryOf(domain) == Finished(cfg, old(EntryOf(domain)), c, fetched)
      ensures forall d :: d != domain ==> EntryOf(d) == old(EntryOf(d))
      ensures
        if fetched.None? then r == c.stale
        else
          var p := Stamped(cfg, c, fetched.value);
          r == if Accepts(cfg, old(EntryOf(domain)), c, p) then Some(p) else c.stale
    {
      if fetched.None? {
        if c.stale.Some? {
          var failures := (if domain in retryFailures then retryFailures[domain] else 0) + 1;
          retryFailures := retryFailures[domain := failures];
          var delay := ComputeRetryDelay(cfg, failures);
          retryAt := retryAt[domain := c.now + delay];
        }
        return c.stale;
      }
      var expire := c.now + fetched.value.maxAge;
      if c.now + cfg.ttl < expire { expire := c.now + cfg.ttl; }
      var p := fetched.value.(expiresAt := expire, id := if c.id.Some? then c.id.value else "");
      retryFailures := retryFailures - {domain};
      retryAt := retryAt - {domain};
      if c.stale.Some? && c.stale.value.id != "" && p.id != "" && p.id != c.stale.value.id {
        var accepted := ObserveRollover(domain, p);
        if !accepted { return c.stale; }
      }
      cache := cache[domain := p];
      rollovers := rollovers - {domain};
      return Some(p);
    }

    method ObserveRollover(domain: string, p: Policy) returns (accepted: bool)
      modifies this`rollovers
      ensures accepted == SeenEnough(cfg, old(EntryOf(domain)), p)
      ensures forall d :: d != domain ==>
        (d in rollovers <==> d in old(rollovers)) && (d in rollovers ==> rollovers[d] == old(rollovers)[d])
      ensures !accepted ==>
        domain in rollovers && rollovers[domain] == Rollover(p, Confirmations(old(EntryOf(domain)), p))
    {
      if cfg.need <= 1 { return true; }
      if domain !in rollovers || rollovers[domain].policy.id != p.id {
        rollovers := rollovers[domain := Rollover(p, 1)];
        return false;
      }
      var st := Rollover(p, rollovers[domain].confirmations + 1);
      if st.confirmations >= cfg.need { return true; }
      rollovers := rollovers[domain := st];
      return false;
    }
  }
}
