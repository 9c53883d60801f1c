/**
 * One delivery round: every recipient of a message passes pause, throttle,
 * reputation, suppression and delivery, and the round ends in exactly one
 * queue operation with a filtered recipient list.
 */
module Dispatcher {
  import opened Common
  import opened DeliveryErrors
  import L = Lmtp
  import Q = QueueStore

  const SECOND: int := 1_000_000_000

  /** Clock readings; zero is the unset time of the source. */
  type Instant = t: int | 0 < t witness 1

  datatype Config = Config(
    maxAttempts: int,
    maxRetryAge: int,
    retrySchedule: seq<int>,
    shaping: bool,
    pauses: bool,
    throttle: bool)

  datatype PauseAnswer = NotPaused | PausedUntil(expiresAt: nat)

  /** Everything the outside world answers while one recipient is processed. */
  datatype RcptEnv = RcptEnv(
    now: Instant,
    cancelled: bool,
    firstPause: PauseAnswer,
    domain: string,
    batch: Option<string>,
    wait: nat,
    secondPause: PauseAnswer,
    reputation: Option<string>,
    suppressed: bool,
    result: Option<DeliveryError>)

  datatype HoldKind = Shutdown | Pause | Limit

  /** What became of a recipient in this round; Queued waits for its LMTP batch. */
  datatype Disposition =
    | Delivered
    | Bounced
    | Suppressed
    | PauseExpired
    | Held(kind: HoldKind, until: Instant)
    | Failing(err: DeliveryError)
    | Queued(key: string)

  /** The kinds of disposition a round is summarised by. */
  datatype Kind = Waiting | Gone | Arrived | InBatch | IsFailing | IsHeld | HeldByPause | UnknownStatus

  predicate Of(kind: Kind, d: Disposition) {
    match kind
    case Waiting => d.Held? || d.Failing?
    case Gone => d.Bounced? || d.Suppressed? || d.PauseExpired?
    case Arrived => d.Delivered?
    case InBatch => d.Queued?
    case IsFailing => d.Failing?
    case IsHeld => d.Held?
    case HeldByPause => d.Held? && d.kind == Pause
    case UnknownStatus => d.Failing? && d.err.unknown
  }

  predicate AgeExhausted(cfg: Config, createdAt: int, now: int) {
    cfg.maxRetryAge > 0 && createdAt != 0 && now - createdAt >= cfg.maxRetryAge
  }

  /** handleResult: the disposition a delivery result leads to. */
  function OfResult(now: Instant, result: Option<DeliveryError>): Disposition {
    match result
    case None => Delivered
    case Some(e) =>
      if e.deferral.Some? then Held(Limit, now + e.deferral.value)
      else if e.unknown then Failing(e)
      else if Permanent(e) then Bounced
      else Failing(e)
  }

  /** checkPause: no answer when delivery may go on. */
  function OfPause(cfg: Config, createdAt: int, now: Instant, pause: PauseAnswer): Option<Disposition> {
    if !cfg.pauses || pause.NotPaused? then None
    else if AgeExhausted(cfg, createdAt, now) then Some(PauseExpired)
    else
      var limit := now + 30 * SECOND;
      Some(Held(Pause, if pause.expiresAt != 0 && pause.expiresAt < limit then pause.expiresAt else limit))
  }

  function Classify(cfg: Config, createdAt: int, env: RcptEnv, leaseHeld: bool): Disposition {
    if env.cancelled && (cfg.shaping || cfg.pauses) then Held(Shutdown, env.now + SECOND)
    else
      var first := OfPause(cfg, createdAt, env.now, env.firstPause);
      if first.Some? then first.value
      else if cfg.throttle && !(env.batch.Some? && leaseHeld) && cfg.shaping &&
           env.wait > 0 then Held(Limit, env.now + env.wait)
      else
        var second := OfPause(cfg, createdAt, env.now, env.secondPause);
        if second.Some? then second.value
        else if env.reputation.Some? then Failing(Plain())
        else if env.suppressed then Suppressed
        else if env.batch.Some? then Queued(env.batch.value)
        else OfResult(env.now, env.result)
  }

  /** A throttle lease taken for one batched recipient covers later ones of the same domain. */
  predicate LeaseHeld(cfg: Config, envs: seq<RcptEnv>, first: seq<Disposition>, domain: string)
    requires |first| <= |envs|
  {
    cfg.throttle && exists j :: 0 <= j < |first| && first[j].Queued? && envs[j].domain == domain
  }

  function FirstPass(cfg: Config, createdAt: int, envs: seq<RcptEnv>): (first: seq<Disposition>)
    ensures |first| == |envs|
  {
    if envs == [] then [] else
      var n := |envs| - 1;
      var before := FirstPass(cfg, createdAt, envs[..n]);
      before + [Classify(cfg, createdAt, envs[n], LeaseHeld(cfg, envs, before, envs[n].domain))]
  }

  /** The positions queued on one LMTP route, in recipient order. */
  function BatchPositions(first: seq<Disposition>, key: string): (ps: seq<nat>)
    ensures forall k :: 0 <= k < |ps| ==> ps[k] < |first|
  {
    if first == [] then [] else
      var n := |first| - 1;
      BatchPositions(first[..n], key) + (if first[n] == Queued(key) then [n] else [])
  }

  lemma {:induction false} PositionsAreExact(first: seq<Disposition>, key: string)
    ensures forall p: nat :: p in BatchPositions(first, key) <==> p < |first| && first[p] == Queued(key)
    ensures forall k, m :: 0 <= k < m < |BatchPositions(first, key)| ==>
      BatchPositions(first, key)[k] < BatchPositions(first, key)[m]
  {
    if first != [] {
      PositionsAreExact(first[..|first| - 1], key);
    }
  }

  function At(rcpts: seq<string>, positions: seq<nat>): seq<string>
    requires forall k :: 0 <= k < |positions| ==> positions[k] < |rcpts|
  {
    seq(|positions|, k requires 0 <= k < |positions| => rcpts[positions[k]])
  }

  /** Indexing a Go map: a missing entry reads as a nil error. */
  function Lookup(results: L.Results, rcpt: string): Option<DeliveryError> {
    if rcpt in results then results[rcpt] else None
  }

  // ----- LMTP batches --------------------------------------------------------

  /** The batch key of every recipient is the one the client's routing gives, and a route is found by domain. */
  ghost predicate Routed(routing: L.Routing, rcpts: seq<string>, envs: seq<RcptEnv>) {
    && |envs| == |rcpts|
    && (forall i :: 0 <= i < |envs| ==> envs[i].batch == routing.key(rcpts[i]))
    && (forall r: string :: routing.key(r).Some? ==> routing.hasDomain(r))
  }

  /** What happens during the batch of one route. */
  datatype Dialogue = Dialogue(env: L.BatchEnv, wire: L.Wire)

  /** The dialogue a route's batch meets, given how many recipients it has. */
  type Peers = (string, nat) -> Dialogue

  ghost predicate Talkative(peers: Peers) {
    forall key: string, n: nat :: L.Answers(peers(key, n).wire, n)
  }

  function BatchRcpts(rcpts: seq<string>, first: seq<Disposition>, key: string): (batch: seq<string>)
    requires |first| == |rcpts|
    ensures |batch| == |BatchPositions(first, key)|
  {
    At(rcpts, BatchPositions(first, key))
  }

  lemma QueuedUnderItsKey(cfg: Config, createdAt: int, envs: seq<RcptEnv>, p: nat)
    requires p < |envs| && FirstPass(cfg, createdAt, envs)[p].Queued?
    ensures envs[p].batch == Some(FirstPass(cfg, createdAt, envs)[p].key)
    decreases |envs|
  {
    if p < |envs| - 1 { QueuedUnderItsKey(cfg, createdAt, envs[..|envs| - 1], p); }
  }

  /** Every batch the dispatcher forms goes to one LMTP route. */
  lemma BatchesShareARoute(cfg: Config, createdAt: int, routing: L.Routing, rcpts: seq<string>, envs: seq<RcptEnv>,
                           key: string)
    requires Routed(routing, rcpts, envs)
    ensures L.SameRoute(routing, BatchRcpts(rcpts, FirstPass(cfg, createdAt, envs), key))
  {
    var first := FirstPass(cfg, createdAt, envs);
    var ps, batch := BatchPositions(first, key), BatchRcpts(rcpts, first, key);
    PositionsAreExact(first, key);
    forall k | 0 <= k < |ps| ensures routing.key(batch[k]) == Some(key) {
      assert ps[k] in ps;
      QueuedUnderItsKey(cfg, createdAt, envs, ps[k]);
    }
  }

  /** r got through the batch: nothing stopped the batch beforehand, and the last final reply read for r is 2xx. */
  ghost predicate ThroughBatch(d: Dialogue, batch: seq<string>, r: string)
    requires L.Answers(d.wire, |batch|)
  {
    !L.Preempted(d.env) && L.GotThrough(d.wire, batch, r)
  }

  /** What the LMTP client tells r about the batch of a route. */
  ghost function BatchResult(peers: Peers, rcpts: seq<string>, first: seq<Disposition>, key: string,
                             r: string): Option<DeliveryError>
    requires |first| == |rcpts| && Talkative(peers)
  {
    var batch := BatchRcpts(rcpts, first, key);
    L.BatchAnswer(peers(key, |batch|).env, peers(key, |batch|).wire, batch, r)
  }

  ghost function FinalOf(rcpts: seq<string>, first: seq<Disposition>, peers: Peers, now: Instant, p: nat): Disposition
    requires p < |first| == |rcpts| && Talkative(peers)
  {
    if first[p].Queued? then OfResult(now, BatchResult(peers, rcpts, first, first[p].key, rcpts[p])) else first[p]
  }

  lemma DeliveredIsNil(now: Instant, result: Option<DeliveryError>)
    ensures OfResult(now, result).Delivered? <==> result.None?
  {
  }

  /** A queued recipient ends up delivered exactly when its batch got it through. */
  lemma BatchDecides(peers: Peers, rcpts: seq<string>, first: seq<Disposition>, now: Instant, p: nat)
    requires p < |first| == |rcpts| && Talkative(peers) && first[p].Queued?
    ensures
      var batch := BatchRcpts(rcpts, first, first[p].key);
      FinalOf(rcpts, first, peers, now, p).Delivered? <==> ThroughBatch(peers(first[p].key, |batch|), batch, rcpts[p])
  {
    var key := first[p].key;
    var ps, batch := BatchPositions(first, key), BatchRcpts(rcpts, first, key);
    PositionsAreExact(first, key);
    var k :| 0 <= k < |ps| && ps[k] == p;
    assert batch[k] == rcpts[p];
    var d := peers(key, |batch|);
    assert L.Answers(d.wire, |batch|);
    L.NilIffGotThrough(d.wire, batch, rcpts[p]);
    DeliveredIsNil(now, BatchResult(peers, rcpts, first, key, rcpts[p]));
  }

  /** With distinct recipients the reply at the recipient's own position decides. */
  lemma OwnReplyDecides(peers: Peers, rcpts: seq<string>, first: seq<Disposition>, key: string, k: nat)
    requires |first| == |rcpts| && Talkative(peers) && NoDup(rcpts) && k < |BatchPositions(first, key)|
    ensures
      var batch := BatchRcpts(rcpts, first, key);
      var d := peers(key, |batch|);
      ThroughBatch(d, batch, rcpts[BatchPositions(first, key)[k]]) <==>
        !L.Preempted(d.env) && L.Succeeds(d.wire, |batch|, k)
  {
    var ps, batch := BatchPositions(first, key), BatchRcpts(rcpts, first, key);
    var d := peers(key, |batch|);
    PositionsAreExact(first, key);
    assert NoDup(batch);
    assert L.Answers(d.wire, |batch|);
    L.DistinctGetThrough(d.wire, batch, k);
  }

  // ----- Accumulated state of a round --------------------------------------

  datatype Tally = Tally(
    remaining: seq<string>,
    errs: seq<DeliveryError>,
    failed: set<string>,
    paused: bool,
    deferredUntil: nat)

  function Record(t: Tally, rcpt: string, d: Disposition): Tally {
    match d
    case Held(Shutdown, until) => t.(remaining := t.remaining + [rcpt], deferredUntil := until)
    case Held(Pause, until) =>
      t.(remaining := t.remaining + [rcpt], paused := true, deferredUntil := Max(t.deferredUntil, until))
    case Held(Limit, until) => t.(remaining := t.remaining + [rcpt], deferredUntil := Max(t.deferredUntil, until))
    case Failing(err) => t.(remaining := t.remaining + [rcpt], errs := t.errs + [err], failed := t.failed + {rcpt})
    case _ => t
  }

  /** The recipients, with multiplicity, whose disposition is of a kind. */
  function Select(rcpts: seq<string>, disp: seq<Disposition>, kind: Kind): multiset<string>
    requires |rcpts| == |disp|
  {
    if rcpts == [] then multiset{} else
      var n := |rcpts| - 1;
      Select(rcpts[..n], disp[..n], kind) + (if Of(kind, disp[n]) then multiset{rcpts[n]} else multiset{})
  }

  predicate Has(disp: seq<Disposition>, kind: Kind) {
    exists i :: 0 <= i < |disp| && Of(kind, disp[i])
  }

  function FailingNames(rcpts: seq<string>, disp: seq<Disposition>): set<string>
    requires |rcpts| == |disp|
  {
    set i | 0 <= i < |disp| && disp[i].Failing? :: rcpts[i]
  }

  /** handleResult never collects a permanent reply: it bounces that recipient instead. */
  predicate Collectable(e: DeliveryError) { e.unknown || !Permanent(e) }

  /** The dispositions of a round, boiled down to what the verdict depends on. */
  datatype Summary = Summary(
    waiting: multiset<string>, failing: set<string>, anyFailing: bool, unknown: bool, paused: bool, held: bool)

  function Adding(s: Summary, rcpt: string, d: Disposition): Summary {
    if d.Failing? then
      s.(waiting := s.waiting + multiset{rcpt}, failing := s.failing + {rcpt}, anyFailing := true,
         unknown := s.unknown || d.err.unknown)
    else if d.Held? then
      s.(waiting := s.waiting + multiset{rcpt}, held := true, paused := s.paused || d.kind == Pause)
    else s
  }

  function Summarize(rcpts: seq<string>, disp: seq<Disposition>): Summary
    requires |rcpts| == |disp|
  {
    if rcpts == [] then Summary(multiset{}, {}, false, false, false, false) else
      var n := |rcpts| - 1;
      Adding(Summarize(rcpts[..n], disp[..n]), rcpts[n], disp[n])
  }

  predicate AnyUnknown(errs: seq<DeliveryError>) {
    errs != [] && (errs[|errs| - 1].unknown || AnyUnknown(errs[..|errs| - 1]))
  }

  lemma {:induction false} AnyUnknownMeaning(errs: seq<DeliveryError>)
    ensures AnyUnknown(errs) <==> exists i :: 0 <= i < |errs| && errs[i].unknown
  {
    if errs != [] {
      var n := |errs| - 1;
      AnyUnknownMeaning(errs[..n]);
      if exists i :: 0 <= i < |errs| && errs[i].unknown {
        var i :| 0 <= i < |errs| && errs[i].unknown;
        assert i < n ==> errs[..n][i].unknown;
      }
    }
  }

  /** The same summary read off the accumulated lists. */
  function OfTally(t: Tally): Summary {
    Summary(multiset(t.remaining), t.failed, |t.errs| > 0, AnyUnknown(t.errs), t.paused, t.deferredUntil > 0)
  }

  predicate AllCollectable(errs: seq<DeliveryError>) {
    forall i :: 0 <= i < |errs| ==> Collectable(errs[i])
  }

  /** Settling a position that was still queued adds exactly its disposition, wherever it stands. */
  lemma {:induction false} SummaryUpdate(rcpts: seq<string>, disp: seq<Disposition>, p: nat, d: Disposition)
    requires |rcpts| == |disp| && p < |rcpts| && disp[p].Queued?
    ensures Summarize(rcpts, disp[p := d]) == Adding(Summarize(rcpts, disp), rcpts[p], d)
  {
    var n := |rcpts| - 1;
    if p == n {
      assert disp[p := d][..n] == disp[..n];
      var s := Summarize(rcpts[..n], disp[..n]);
      assert Adding(s, rcpts[n], disp[n]) == s;
    } else {
      assert disp[p := d][..n] == disp[..n][p := d];
      SummaryUpdate(rcpts[..n], disp[..n], p, d);
      AddingCommutes(Summarize(rcpts[..n], disp[..n]), rcpts[p], d, rcpts[n], disp[n]);
    }
  }

  lemma AddingCommutes(s: Summary, r1: string, d1: Disposition, r2: string, d2: Disposition)
    ensures Adding(Adding(s, r1, d1), r2, d2) == Adding(Adding(s, r2, d2), r1, d1)
  {
    var a, b := Adding(Adding(s, r1, d1), r2, d2), Adding(Adding(s, r2, d2), r1, d1);
    assert a.waiting == b.waiting;
    assert a.failing == b.failing;
  }

  /** What the summary's fields say about the dispositions. */
  lemma SummaryMeaning(rcpts: seq<string>, disp: seq<Disposition>)
    requires |rcpts| == |disp|
    ensures var s := Summarize(rcpts, disp);
      && s.waiting == Select(rcpts, disp, Waiting)
      && s.failing == FailingNames(rcpts, disp)
      && s.anyFailing == Has(disp, IsFailing) && s.unknown == Has(disp, UnknownStatus)
      && s.paused == Has(disp, HeldByPause) && s.held == Has(disp, IsHeld)
  {
    SummaryNames(rcpts, disp);
    SummaryFlags(rcpts, disp);
  }

  lemma {:induction false} SummaryNames(rcpts: seq<string>, disp: seq<Disposition>)
    requires |rcpts| == |disp|
    ensures Summarize(rcpts, disp).waiting == Select(rcpts, disp, Waiting)
    ensures Summarize(rcpts, disp).failing == FailingNames(rcpts, disp)
  {
    if rcpts != [] {
      var n := |rcpts| - 1;
      SummaryNames(rcpts[..n], disp[..n]);
      FailingSnoc(rcpts, disp);
    }
  }

  lemma {:induction false} SummaryFlags(rcpts: seq<string>, disp: seq<Disposition>)
    requires |rcpts| == |disp|
    ensures var s := Summarize(rcpts, disp);
      && s.anyFailing == Has(disp, IsFailing) && s.unknown == Has(disp, UnknownStatus)
      && s.paused == Has(disp, HeldByPause) && s.held == Has(disp, IsHeld)
  {
    if rcpts != [] {
      var n := |rcpts| - 1;
      SummaryFlags(rcpts[..n], disp[..n]);
      HasSnoc(disp, IsFailing);
      HasSnoc(disp, UnknownStatus);
      HasSnoc(disp, HeldByPause);
      HasSnoc(disp, IsHeld);
    }
  }

  lemma HasSnoc(disp: seq<Disposition>, kind: Kind)
    requires disp != []
    ensures Has(disp, kind) <==> Has(disp[..|disp| - 1], kind) || Of(kind, disp[|disp| - 1])
  {
    var n := |disp| - 1;
    if Has(disp[..n], kind) {
      var i :| 0 <= i < n && Of(kind, disp[..n][i]);
      assert Of(kind, disp[i]);
    }
    if Has(disp, kind) {
      var i :| 0 <= i < |disp| && Of(kind, disp[i]);
      assert i < n ==> Of(kind, disp[..n][i]);
    }
  }

  lemma FailingSnoc(rcpts: seq<string>, disp: seq<Disposition>)
    requires |rcpts| == |disp| > 0
    ensures var n := |disp| - 1;
      FailingNames(rcpts, disp) == FailingNames(rcpts[..n], disp[..n]) + (if disp[n].Failing? then {rcpts[n]} else {})
  {
    var n := |disp| - 1;
    forall r | r in FailingNames(rcpts, disp)
      ensures r in FailingNames(rcpts[..n], disp[..n]) || (disp[n].Failing? && r == rcpts[n]) {
      var i :| 0 <= i < |disp| && disp[i].Failing? && rcpts[i] == r;
      assert i < n ==> disp[..n][i].Failing? && rcpts[..n][i] == r;
    }
    forall r | r in FailingNames(rcpts[..n], disp[..n]) ensures r in FailingNames(rcpts, disp) {
      var i :| 0 <= i < n && disp[..n][i].Failing? && rcpts[..n][i] == r;
      assert disp[i].Failing? && rcpts[i] == r;
    }
  }

  /** Recording a disposition keeps the tally in step with the summary. */
  lemma RecordMatches(t: Tally, rcpt: string, d: Disposition)
    ensures OfTally(Record(t, rcpt, d)) == Adding(OfTally(t), rcpt, d)
  {
    if d.Failing? {
      RecordFailing(t, rcpt, d);
    } else if d.Held? {
      RecordHeld(t, rcpt, d);
    }
  }

  lemma RecordFailing(t: Tally, rcpt: string, d: Disposition)
    requires d.Failing?
    ensures OfTally(Record(t, rcpt, d)) == Adding(OfTally(t), rcpt, d)
  {
    var after := Record(t, rcpt, d).errs;
    assert after[..|after| - 1] == t.errs;
  }

  lemma RecordHeld(t: Tally, rcpt: string, d: Disposition)
    requires d.Held?
    ensures OfTally(Record(t, rcpt, d)) == Adding(OfTally(t), rcpt, d)
  {
    assert multiset(t.remaining + [rcpt]) == multiset(t.remaining) + multiset{rcpt};
    assert Record(t, rcpt, d).remaining == t.remaining + [rcpt] && Record(t, rcpt, d).errs == t.errs;
  }

  // ----- Giving up ---------------------------------------------------------

  predicate Exhausted(cfg: Config, attempts: int, createdAt: int, now: int) {
    (cfg.maxAttempts > 0 && attempts >= cfg.maxAttempts) || AgeExhausted(cfg, createdAt, now)
  }

  /** An error shouldFail counts as temporary: no SMTP reply at all, or a 4xx one. */
  predicate CountsTemporary(e: DeliveryError) { e.code.None? || Temporary(e) }

  /** On any error list; on the errors a round collects, exactly exhaustion or an unknown status. */
  method ShouldFail(cfg: Config, attempts: int, createdAt: int, errs: seq<DeliveryError>, now: int) returns (fail: bool)
    ensures fail <==>
      Exhausted(cfg, attempts, createdAt, now) ||
      AnyUnknown(errs) ||
      ((forall i :: 0 <= i < |errs| ==> !CountsTemporary(errs[i])) && exists i :: 0 <= i < |errs| && Permanent(errs[i]))
    ensures (forall i :: 0 <= i < |errs| ==> Collectable(errs[i])) ==>
      (fail <==> Exhausted(cfg, attempts, createdAt, now) || AnyUnknown(errs))
  {
    AnyUnknownMeaning(errs);
    if cfg.maxAttempts > 0 && attempts >= cfg.maxAttempts {
      return true;
    }
    if cfg.maxRetryAge > 0 && createdAt != 0 && now - createdAt >= cfg.maxRetryAge {
      return true;
    }
    if |errs| == 0 {
      return false;
    }
    var hasTemporary, hasPermanent := false, false;
    for i := 0 to |errs|
      invariant forall j :: 0 <= j < i ==> !errs[j].unknown
      invariant hasTemporary <==> exists j :: 0 <= j < i && CountsTemporary(errs[j])
      invariant hasPermanent <==> exists j :: 0 <= j < i && Permanent(errs[j])
    {
      var e := errs[i];
      if e.unknown {
        return true;
      }
      if e.code.Some? {
        if Temporary(e) { hasTemporary := true; }
        if Permanent(e) { hasPermanent := true; }
      } else if e.cancelled {
        hasTemporary := true;
      } else {
        hasTemporary := true;
      }
    }
    return if hasTemporary then false else hasPermanent;
  }

  function Backoff(attempts: int, schedule: seq<int>): int {
    if |schedule| == 0 then 24 * 3600 * SECOND
    else if attempts < 0 then schedule[0]
    else if attempts >= |schedule| then schedule[|schedule| - 1]
    else schedule[attempts]
  }

  // ----- The verdict -------------------------------------------------------

  /** The one queue operation a round ends with. */
  datatype Verdict =
    | Ack
    | Defer(rcpts: seq<string>, delay: int)
    | Retry(rcpts: seq<string>, delay: int)
    | DeadLetter(rcpts: seq<string>)

  predicate GivesUp(cfg: Config, msg: Q.Message, now: int, s: Summary) {
    Exhausted(cfg, msg.attempts, msg.createdAt, now) || s.unknown
  }

  /**
   * What the dispositions of a round entitle it to do. `late` are the
   * recipients bounced at the end because another one is held by a pause.
   */
  ghost predicate VerdictFollows(cfg: Config, msg: Q.Message, now: int, s: Summary, v: Verdict, late: seq<string>) {
    if !s.anyFailing then
      late == [] && if s.held then v.Defer? && multiset(v.rcpts) == s.waiting else v == Ack
    else if GivesUp(cfg, msg, now, s) then
      if s.paused then
        && v.Defer? && multiset(v.rcpts) + multiset(late) == s.waiting
        && (forall r :: r in late ==> r in s.failing)
        && (forall r :: r in v.rcpts ==> r !in s.failing)
      else late == [] && v.DeadLetter? && multiset(v.rcpts) == s.waiting
    else
      late == [] && v.Retry? && multiset(v.rcpts) == s.waiting && v.delay >= Backoff(msg.attempts, cfg.retrySchedule)
  }

  method Decide(cfg: Config, msg: Q.Message, now: int, t: Tally, ghost s: Summary)
    returns (v: Verdict, late: seq<string>)
    requires OfTally(t) == s && AllCollectable(t.errs)
    ensures VerdictFollows(cfg, msg, now, s, v, late)
  {
    late := [];
    if |t.errs| == 0 && t.deferredUntil != 0 {
      return Defer(t.remaining, t.deferredUntil - now), late;
    }
    if |t.errs| == 0 {
      return Ack, late;
    }
    var fail := ShouldFail(cfg, msg.attempts, msg.createdAt, t.errs, now);
    if fail {
      if t.paused {
        var held: seq<string> := [];
        for i := 0 to |t.remaining|
          invariant multiset(held) + multiset(late) == multiset(t.remaining[..i])
          invariant forall r :: r in late ==> r in t.failed
          invariant forall r :: r in held ==> r !in t.failed
        {
          assert t.remaining[..i + 1] == t.remaining[..i] + [t.remaining[i]];
          if t.remaining[i] in t.failed {
            late := late + [t.remaining[i]];
          } else {
            held := held + [t.remaining[i]];
          }
        }
        assert t.remaining[..|t.remaining|] == t.remaining;
        return Defer(held, t.deferredUntil - now), late;
      }
      return DeadLetter(t.remaining), late;
    }
    return Retry(t.remaining, Max(Backoff(msg.attempts, cfg.retrySchedule), t.deferredUntil - now)), late;
  }

  // ----- A whole round -----------------------------------------------------

  lemma {:induction false} NothingQueuedYet(rcpts: seq<string>, disp: seq<Disposition>)
    requires |rcpts| == |disp| && forall i :: 0 <= i < |disp| ==> disp[i].Queued?
    ensures Summarize(rcpts, disp) == Summary(multiset{}, {}, false, false, false, false)
  {
    if rcpts != [] {
      NothingQueuedYet(rcpts[..|rcpts| - 1], disp[..|rcpts| - 1]);
    }
  }

  lemma ClassifyCollects(cfg: Config, createdAt: int, env: RcptEnv, leaseHeld: bool)
    ensures var d := Classify(cfg, createdAt, env, leaseHeld); d.Failing? ==> Collectable(d.err)
  {}

  /**
   * A round. Each recipient ends with the disposition its answers entitle it
   * to, a batched one is delivered exactly when the LMTP dialogue of its route
   * got it through, and the verdict follows from the dispositions. Batches are
   * delivered in whatever order the map of batches is iterated.
   */
  method HandleMessage(cfg: Config, msg: Q.Message, routing: L.Routing, envs: seq<RcptEnv>, peers: Peers,
                       batchNow: Instant, now: Instant)
    returns (v: Verdict, late: seq<string>, disp: seq<Disposition>)
    requires Routed(routing, msg.rcptTo, envs) && Talkative(peers)
    ensures |disp| == |msg.rcptTo|
    ensures forall p :: 0 <= p < |disp| ==>
      disp[p] == FinalOf(msg.rcptTo, FirstPass(cfg, msg.createdAt, envs), peers, batchNow, p) && !disp[p].Queued?
    ensures forall p :: 0 <= p < |disp| ==>
      BatchConcludes(peers, msg.rcptTo, FirstPass(cfg, msg.createdAt, envs), p, disp[p])
    ensures VerdictFollows(cfg, msg, now, Summarize(msg.rcptTo, disp), v, late)
  {
    var rcpts := msg.rcptTo;
    var t, first, batches;
    t, first, batches := FirstRound(cfg, msg, envs);
    forall key | key in batches ensures L.SameRoute(routing, At(rcpts, batches[key])) {
      BatchesShareARoute(cfg, msg.createdAt, routing, rcpts, envs, key);
    }
    t, disp := DeliverBatches(rcpts, routing, peers, batchNow, batches, t, first);
    forall p | 0 <= p < |disp| ensures BatchConcludes(peers, rcpts, first, p, disp[p]) {
      if first[p].Queued? { BatchDecides(peers, rcpts, first, batchNow, p); }
    }
    v, late := Decide(cfg, msg, now, t, Summarize(rcpts, disp));
  }

  /** A position put into a batch is delivered exactly when its batch got its recipient through. */
  ghost predicate BatchConcludes(peers: Peers, rcpts: seq<string>, first: seq<Disposition>, p: nat, d: Disposition)
    requires p < |first| == |rcpts| && Talkative(peers)
  {
    first[p].Queued? ==>
      var batch := BatchRcpts(rcpts, first, first[p].key);
      d.Delivered? <==> ThroughBatch(peers(first[p].key, |batch|), batch, rcpts[p])
  }

  /** The loop over the recipients: everything but the LMTP batches is settled. */
  method FirstRound(cfg: Config, msg: Q.Message, envs: seq<RcptEnv>)
    returns (t: Tally, disp: seq<Disposition>, batches: map<string, seq<nat>>)
    requires |envs| == |msg.rcptTo|
    ensures disp == FirstPass(cfg, msg.createdAt, envs)
    ensures InStep(msg.rcptTo, t, disp) && BatchesMatch(batches, disp)
  {
    var rcpts := msg.rcptTo;
    t, batches := Tally([], [], {}, false, 0), map[];
    var leases: set<string> := {};
    disp := seq(|rcpts|, _ => Queued(""));
    NothingQueuedYet(rcpts, disp);
    ghost var first: seq<Disposition> := [];
    for i := 0 to |rcpts|
      invariant |disp| == |rcpts| && first == FirstPass(cfg, msg.createdAt, envs[..i])
      invariant disp[..i] == first
      invariant forall p :: i <= p < |disp| ==> disp[p].Queued?
      invariant InStep(rcpts, t, disp)
      invariant BatchesMatch(batches, first)
      invariant LeasesMatch(cfg, envs, first, leases)
    {
      var d;
      d, batches, leases := ClassifyNext(cfg, msg.createdAt, envs, i, batches, leases, first);
      t, disp := Settle(rcpts, t, disp, i, d);
      first := first + [d];
    }
    assert envs[..|rcpts|] == envs && disp[..|rcpts|] == disp;
  }

  /** One recipient: its disposition, the batch it may join and the lease it may take. */
  method ClassifyNext(cfg: Config, createdAt: int, envs: seq<RcptEnv>, i: nat, batches0: map<string, seq<nat>>,
                      leases0: set<string>,
                      ghost first: seq<Disposition>)
    returns (d: Disposition, batches: map<string, seq<nat>>, leases: set<string>)
    requires i < |envs| && first == FirstPass(cfg, createdAt, envs[..i])
    requires BatchesMatch(batches0, first) && LeasesMatch(cfg, envs, first, leases0)
    ensures first + [d] == FirstPass(cfg, createdAt, envs[..i + 1]) && (d.Failing? ==> Collectable(d.err))
    ensures BatchesMatch(batches, first + [d]) && LeasesMatch(cfg, envs, first + [d], leases)
  {
    var held := envs[i].domain in leases0;
    batches, leases := batches0, leases0;
    d := Classify(cfg, createdAt, envs[i], held);
    ClassifyCollects(cfg, createdAt, envs[i], held);
    FirstPassSnoc(cfg, createdAt, envs, i);
    BatchesSnoc(batches, first, d);
    LeasesSnoc(cfg, envs, first, leases, d);
    if d.Queued? {
      batches := Appended(batches, d.key, i);
      if cfg.throttle { leases := leases + {envs[i].domain}; }
    }
  }

  ghost predicate LeasesMatch(cfg: Config, envs: seq<RcptEnv>, first: seq<Disposition>, leases: set<string>)
    requires |first| <= |envs|
  {
    forall domain :: domain in leases <==> LeaseHeld(cfg, envs, first, domain)
  }

  lemma LeasesSnoc(cfg: Config, envs: seq<RcptEnv>, first: seq<Disposition>, leases: set<string>, d: Disposition)
    requires |first| < |envs| && LeasesMatch(cfg, envs, first, leases)
    ensures LeasesMatch(cfg, envs, first + [d],
                        if d.Queued? && cfg.throttle then leases + {envs[|first|].domain} else leases)
  {
    var after := first + [d];
    assert after[|first|] == d;
    forall domain | LeaseHeld(cfg, envs, first, domain) ensures LeaseHeld(cfg, envs, after, domain) {
      var j :| 0 <= j < |first| && first[j].Queued? && envs[j].domain == domain;
      assert after[j] == first[j];
    }
  }

  ghost predicate InStep(rcpts: seq<string>, t: Tally, disp: seq<Disposition>) {
    |rcpts| == |disp| && OfTally(t) == Summarize(rcpts, disp) && AllCollectable(t.errs)
  }

  /** Enter one disposition: the history entry and the accumulated lists together. */
  method Settle(rcpts: seq<string>, t0: Tally, disp0: seq<Disposition>, p: nat, d: Disposition)
    returns (t: Tally, disp: seq<Disposition>)
    requires p < |rcpts| && InStep(rcpts, t0, disp0) && disp0[p].Queued?
    requires d.Failing? ==> Collectable(d.err)
    ensures disp == disp0[p := d] && InStep(rcpts, t, disp)
  {
    SummaryUpdate(rcpts, disp0, p, d);
    RecordMatches(t0, rcpts[p], d);
    t, disp := Record(t0, rcpts[p], d), disp0[p := d];
  }

  ghost predicate BatchesMatch(batches: map<string, seq<nat>>, first: seq<Disposition>) {
    && (forall key :: key in batches <==> BatchPositions(first, key) != [])
    && (forall key :: key in batches ==> batches[key] == BatchPositions(first, key))
  }

  function Appended(batches: map<string, seq<nat>>, key: string, p: nat): map<string, seq<nat>> {
    batches[key := (if key in batches then batches[key] else []) + [p]]
  }

  lemma BatchesSnoc(batches: map<string, seq<nat>>, first: seq<Disposition>, d: Disposition)
    requires BatchesMatch(batches, first)
    ensures BatchesMatch(if d.Queued? then Appended(batches, d.key, |first|) else batches, first + [d])
  {
    forall key: string {
      PositionsSnoc(first, d, key);
    }
  }

  lemma PositionsSnoc(first: seq<Disposition>, d: Disposition, key: string)
    ensures BatchPositions(first + [d], key) ==
      BatchPositions(first, key) + (if d == Queued(key) then [|first|] else [])
  {
    assert (first + [d])[..|first|] == first;
  }

  lemma FirstPassSnoc(cfg: Config, createdAt: int, envs: seq<RcptEnv>, i: nat)
    requires i < |envs|
    ensures var before := FirstPass(cfg, createdAt, envs[..i]);
      FirstPass(cfg, createdAt, envs[..i + 1]) ==
        before + [Classify(cfg, createdAt, envs[i], LeaseHeld(cfg, envs, before, envs[i].domain))]
  {
    var part := envs[..i + 1];
    assert part[..i] == envs[..i] && part[i] == envs[i];
    var before := FirstPass(cfg, createdAt, envs[..i]);
    assert LeaseHeld(cfg, part, before, envs[i].domain) == LeaseHeld(cfg, envs, before, envs[i].domain);
  }

  /** Positions of batches still to be delivered keep their place; all others have their final disposition. */
  ghost predicate Progress(first: seq<Disposition>, final: seq<Disposition>, todo: set<string>,
                           disp: seq<Disposition>) {
    |disp| == |final| == |first| && forall p :: 0 <= p < |disp| ==>
      disp[p] == if first[p].Queued? && first[p].key in todo then first[p] else final[p]
  }

  ghost function Finals(rcpts: seq<string>, first: seq<Disposition>, peers: Peers, now: Instant): seq<Disposition>
    requires |first| == |rcpts| && Talkative(peers)
  {
    seq(|rcpts|, p requires 0 <= p < |rcpts| => FinalOf(rcpts, first, peers, now, p))
  }

  /** Each batch goes to the LMTP client, and its results settle its recipients. */
  method DeliverBatches(rcpts: seq<string>, routing: L.Routing, peers: Peers, now: Instant,
                        batches: map<string, seq<nat>>,
                        t0: Tally, first: seq<Disposition>)
    returns (t: Tally, disp: seq<Disposition>)
    requires |first| == |rcpts| && BatchesMatch(batches, first) && Talkative(peers)
    requires forall r: string :: routing.key(r).Some? ==> routing.hasDomain(r)
    requires forall key :: key in batches ==> L.SameRoute(routing, At(rcpts, batches[key]))
    requires InStep(rcpts, t0, first)
    ensures disp == Finals(rcpts, first, peers, now)
    ensures InStep(rcpts, t, disp)
  {
    t, disp := t0, first;
    ghost var final := Finals(rcpts, first, peers, now);
    var todo := batches.Keys;
    forall p | 0 <= p < |first| && first[p].Queued? ensures first[p].key in batches {
      PositionsAreExact(first, first[p].key);
      assert p in BatchPositions(first, first[p].key);
    }
    while todo != {}
      invariant todo <= batches.Keys
      invariant Progress(first, final, todo, disp)
      invariant InStep(rcpts, t, disp)
      decreases todo
    {
      var key :| key in todo;
      var results := DeliverRoute(rcpts, routing, peers, batches[key], key, first);
      PositionsAreExact(first, key);
      t, disp := DeliverOneBatch(rcpts, results, now, batches[key], t, disp, key, first, final, todo);
      todo := todo - {key};
    }
  }

  /** One call of the LMTP client: every position of the batch has an entry, so no missing one is read. */
  method DeliverRoute(rcpts: seq<string>, routing: L.Routing, peers: Peers, batch: seq<nat>, key: string,
                      ghost first: seq<Disposition>)
    returns (results: L.Results)
    requires |first| == |rcpts| && Talkative(peers) && batch == BatchPositions(first, key) && batch != []
    requires forall r: string :: routing.key(r).Some? ==> routing.hasDomain(r)
    requires L.SameRoute(routing, At(rcpts, batch))
    ensures forall p :: 0 <= p < |first| && first[p] == Queued(key) ==>
      rcpts[p] in results && results[rcpts[p]] == BatchResult(peers, rcpts, first, key, rcpts[p])
  {
    var recipients := At(rcpts, batch);
    var d := peers(key, |batch|);
    assert L.Answers(d.wire, |batch|);
    results := L.DeliverBatch(routing, d.env, d.wire, recipients);
    PositionsAreExact(first, key);
    forall p | 0 <= p < |first| && first[p] == Queued(key) ensures rcpts[p] in L.Names(recipients) {
      var k :| 0 <= k < |batch| && batch[k] == p;
      assert recipients[k] == rcpts[p];
    }
  }

  method DeliverOneBatch(rcpts: seq<string>, results: L.Results, now: Instant, batch: seq<nat>,
                         t0: Tally, disp0: seq<Disposition>,
                         ghost key: string, ghost first: seq<Disposition>, ghost final: seq<Disposition>,
                         ghost todo: set<string>)
    returns (t: Tally, disp: seq<Disposition>)
    requires |first| == |rcpts| && key in todo
    requires forall k :: 0 <= k < |batch| ==> batch[k] < |first| && first[batch[k]] == Queued(key)
    requires NoDup(batch)
    requires forall p :: 0 <= p < |first| && first[p] == Queued(key) ==> p in batch
    requires Progress(first, final, todo, disp0)
    requires forall p :: 0 <= p < |first| && first[p] == Queued(key) ==>
      final[p] == OfResult(now, Lookup(results, rcpts[p]))
    requires InStep(rcpts, t0, disp0)
    ensures Progress(first, final, todo - {key}, disp)
    ensures InStep(rcpts, t, disp)
  {
    t, disp := t0, disp0;
    ghost var done: set<nat> := {};
    for k := 0 to |batch|
      invariant Patched(disp0, final, done, disp)
      invariant forall j :: 0 <= j < |batch| ==> (batch[j] in done <==> j < k)
      invariant forall p :: p in done ==> p < |first| && first[p] == Queued(key)
      invariant InStep(rcpts, t, disp)
    {
      var p := batch[k];
      t, disp := Settle(rcpts, t, disp, p, OfResult(now, Lookup(results, rcpts[p])));
      done := done + {p};
    }
    forall p | 0 <= p < |first| && first[p] == Queued(key) ensures p in done {
      var j :| 0 <= j < |batch| && batch[j] == p;
    }
  }

  ghost predicate Patched(before: seq<Disposition>, final: seq<Disposition>, done: set<nat>, after: seq<Disposition>) {
    |after| == |before| == |final| &&
    forall p :: 0 <= p < |after| ==> after[p] == if p in done then final[p] else before[p]
  }
}
