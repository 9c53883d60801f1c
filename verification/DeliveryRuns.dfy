/**
 * Whole runs of one message: delivery rounds applied to the durable queue,
 * interleaved with any operations on other messages. Queue writes succeed and
 * no operator requeues the message.
 */
module DeliveryRuns {
  import opened Common
  import Q = QueueStore
  import D = Dispatcher
  import L = Lmtp

  /** The queue, plus what has left it: recipients delivered and recipients finally dropped. */
  datatype Life = Life(q: Q.QState, delivered: multiset<string>, dropped: multiset<string>, retries: nat)

  datatype Event =
    | Round(disp: seq<D.Disposition>, verdict: D.Verdict, late: seq<string>, now: int, reason: string)
    | Other(op: Q.Op)

  /** Where a message is and what its record says. */
  datatype Place = Missing | At(dir: Q.Dir, msg: Q.Message)

  function Where(disk: Q.Disk, id: Q.Id): Place {
    if Q.Slot(Q.Inbound, id) in disk then AtFile(Q.Inbound, disk[Q.Slot(Q.Inbound, id)])
    else if Q.Slot(Q.Retry, id) in disk then AtFile(Q.Retry, disk[Q.Slot(Q.Retry, id)])
    else if Q.Slot(Q.Legacy, id) in disk then AtFile(Q.Legacy, disk[Q.Slot(Q.Legacy, id)])
    else if Q.Slot(Q.Sent, id) in disk then AtFile(Q.Sent, disk[Q.Slot(Q.Sent, id)])
    else if Q.Slot(Q.Dlq, id) in disk then AtFile(Q.Dlq, disk[Q.Slot(Q.Dlq, id)])
    else Missing
  }

  function AtFile(dir: Q.Dir, file: Q.File): Place {
    if file.Decoded? then At(dir, file.msg) else Missing
  }

  /** One directory per message, and a readable, unquarantined record under its own id for this one. */
  ghost predicate Tracked(disk: Q.Disk, id: Q.Id) {
    Q.OneHome(disk) && Where(disk, id).At? && Where(disk, id).msg.id == id && Where(disk, id).msg.quarantine.None?
  }

  predicate IsPending(place: Place) { place.At? && Q.PendingDir(place.dir) }

  function Pending(place: Place): multiset<string> {
    if IsPending(place) then multiset(place.msg.rcptTo) else multiset{}
  }

  function Dead(place: Place): multiset<string> {
    if place.At? && place.dir == Q.Dlq then multiset(place.msg.rcptTo) else multiset{}
  }

  /** The queue operation a verdict stands for. */
  function OpFor(msg: Q.Message, v: D.Verdict, now: int, reason: string): Q.Op {
    match v
    case Ack => Q.OpAck(msg.id, msg, now)
    case Defer(rcpts, delay) => Q.OpDefer(msg.(rcptTo := rcpts), delay, now)
    case Retry(rcpts, delay) => Q.OpRetry(msg.(rcptTo := rcpts), delay, reason, now)
    case DeadLetter(rcpts) => Q.OpFail(msg.(rcptTo := rcpts), reason, now)
  }

  /** A round that the dispatcher may perform on the pending record, or an operation on other messages. */
  ghost predicate Enabled(cfg: D.Config, id: Q.Id, life: Life, e: Event) {
    match e
    case Round(disp, verdict, late, now, _) =>
      var place := Where(life.q.disk, id);
      && IsPending(place)
      && |disp| == |place.msg.rcptTo|
      && (forall i :: 0 <= i < |disp| ==> !disp[i].Queued?)
      && D.VerdictFollows(cfg, place.msg, now, D.Summarize(place.msg.rcptTo, disp), verdict, late)
    case Other(op) => op.OpSweep? || Q.IdOf(op) != id
  }

  ghost function Next(l: Q.Limits, id: Q.Id, life: Life, e: Event): Life {
    match e
    case Round(disp, verdict, late, now, reason) =>
      var place := Where(life.q.disk, id);
      if !IsPending(place) || |disp| != |place.msg.rcptTo| then life else
        var rcpts := place.msg.rcptTo;
        Life(Q.Exec(l, life.q, OpFor(place.msg, verdict, now, reason)),
             life.delivered + D.Select(rcpts, disp, D.Arrived),
             life.dropped + D.Select(rcpts, disp, D.Gone) + multiset(late),
             life.retries + if verdict.Retry? then 1 else 0)
    case Other(op) => life.(q := Q.Exec(l, life.q, op))
  }

  ghost predicate RunEnabled(l: Q.Limits, cfg: D.Config, id: Q.Id, life: Life, events: seq<Event>)
    decreases |events|
  {
    events == [] || (Enabled(cfg, id, life, events[0]) &&
                     RunEnabled(l, cfg, id, Next(l, id, life, events[0]), events[1..]))
  }

  ghost function RunAll(l: Q.Limits, id: Q.Id, life: Life, events: seq<Event>): Life
    decreases |events|
  {
    if events == [] then life else RunAll(l, id, Next(l, id, life, events[0]), events[1..])
  }

  // ----- One round ---------------------------------------------------------

  lemma AddToOne(m: multiset<string>, x: string, a: multiset<string>, b: multiset<string>, c: multiset<string>)
    requires m == a + b + c
    ensures m + multiset{x} == (a + multiset{x}) + b + c
    ensures m + multiset{x} == a + (b + multiset{x}) + c
    ensures m + multiset{x} == a + b + (c + multiset{x})
  {
  }

  lemma SelectLast(rcpts: seq<string>, disp: seq<D.Disposition>, kind: D.Kind)
    requires |rcpts| == |disp| && rcpts != []
    ensures
      var n := |rcpts| - 1;
      D.Select(rcpts, disp, kind) == With(D.Select(rcpts[..n], disp[..n], kind), rcpts[n], D.Of(kind, disp[n]))
  {
  }

  /** Every settled recipient is delivered, dropped or waiting, with multiplicity. */
  lemma {:induction false} DispositionsPartition(rcpts: seq<string>, disp: seq<D.Disposition>)
    requires |rcpts| == |disp| && forall i :: 0 <= i < |disp| ==> !disp[i].Queued?
    ensures multiset(rcpts) ==
      D.Select(rcpts, disp, D.Arrived) + D.Select(rcpts, disp, D.Gone) + D.Select(rcpts, disp, D.Waiting)
  {
    if rcpts != [] {
      var n := |rcpts| - 1;
      var a, b := rcpts[..n], disp[..n];
      DispositionsPartition(a, b);
      assert rcpts == a + [rcpts[n]];
      SelectLast(rcpts, disp, D.Arrived);
      SelectLast(rcpts, disp, D.Gone);
      SelectLast(rcpts, disp, D.Waiting);
      PartitionStep(multiset(a), rcpts[n], disp[n], D.Select(a, b, D.Arrived), D.Select(a, b, D.Gone),
                    D.Select(a, b, D.Waiting));
    }
  }

  function With(m: multiset<string>, x: string, yes: bool): multiset<string> { if yes then m + multiset{x} else m }

  lemma PartitionStep(m: multiset<string>, x: string, d: D.Disposition, a: multiset<string>, b: multiset<string>,
                      c: multiset<string>)
    requires m == a + b + c && !d.Queued?
    ensures m + multiset{x} ==
      With(a, x, D.Of(D.Arrived, d)) + With(b, x, D.Of(D.Gone, d)) + With(c, x, D.Of(D.Waiting, d))
  {
    AddToOne(m, x, a, b, c);
  }

  /** What a verdict keeps in the queue: pending again, or dead-lettered. */
  function Kept(v: D.Verdict): multiset<string> {
    match v
    case Ack => multiset{}
    case Defer(rcpts, _) => multiset(rcpts)
    case Retry(rcpts, _) => multiset(rcpts)
    case DeadLetter(rcpts) => multiset(rcpts)
  }

  lemma VerdictKeepsTheWaiting(cfg: D.Config, msg: Q.Message, now: int, disp: seq<D.Disposition>, v: D.Verdict,
                               late: seq<string>)
    requires |disp| == |msg.rcptTo|
    requires D.VerdictFollows(cfg, msg, now, D.Summarize(msg.rcptTo, disp), v, late)
    ensures Kept(v) + multiset(late) == D.Select(msg.rcptTo, disp, D.Waiting)
  {
    D.SummaryMeaning(msg.rcptTo, disp);
    if v == D.Ack {
      NothingWaits(msg.rcptTo, disp);
    }
  }

  lemma {:induction false} NothingWaits(rcpts: seq<string>, disp: seq<D.Disposition>)
    requires |rcpts| == |disp| && !D.Has(disp, D.IsFailing) && !D.Has(disp, D.IsHeld)
    ensures D.Select(rcpts, disp, D.Waiting) == multiset{}
  {
    if rcpts != [] {
      var n := |rcpts| - 1;
      assert !D.Of(D.IsFailing, disp[n]) && !D.Of(D.IsHeld, disp[n]);
      D.HasSnoc(disp, D.IsFailing);
      D.HasSnoc(disp, D.IsHeld);
      NothingWaits(rcpts[..n], disp[..n]);
    }
  }

  /** Where a round leaves the record, and what it then says. */
  function Moved(msg: Q.Message, v: D.Verdict, now: int, reason: string): Place {
    match v
    case Ack => At(Q.Sent, msg.(updatedAt := now))
    case Defer(rcpts, delay) => At(Q.Retry, Q.Deferred(msg.(rcptTo := rcpts), delay, now))
    case Retry(rcpts, delay) => At(Q.Retry, Q.Retried(msg.(rcptTo := rcpts), delay, reason, now))
    case DeadLetter(rcpts) => At(Q.Dlq, Q.DeadLettered(msg.(rcptTo := rcpts), reason, now))
  }

  lemma MovedHoldsTheKept(msg: Q.Message, v: D.Verdict, now: int, reason: string)
    ensures var place := Moved(msg, v, now, reason);
      && Pending(place) + Dead(place) == Kept(v)
      && place.msg.id == msg.id && place.msg.quarantine == msg.quarantine
  {}

  lemma RoundMovesTheRecord(l: Q.Limits, id: Q.Id, q: Q.QState, v: D.Verdict, now: int, reason: string)
    requires Tracked(q.disk, id) && IsPending(Where(q.disk, id))
    ensures var msg := Where(q.disk, id).msg;
      var after := Q.Exec(l, q, OpFor(msg, v, now, reason)).disk;
      Q.OneHome(after) && Where(after, id) == Moved(msg, v, now, reason)
  {
    var msg := Where(q.disk, id).msg;
    var place, steps := Moved(msg, v, now, reason), Q.PlanOf(l, q, OpFor(msg, v, now, reason)).0.steps;
    assert steps == Q.Move(id, place.dir, place.msg);
    Q.MoveCompleted(q.disk, id, place.dir, place.msg);
    Q.HomeAfterMove(q.disk, id, place.dir, place.msg);
  }

  /** A round hands the store the payload its pending record holds, as the capacity results ask. */
  lemma RoundKeepsData(id: Q.Id, disk: Q.Disk, v: D.Verdict, now: int, reason: string)
    requires Tracked(disk, id) && IsPending(Where(disk, id))
    ensures Q.KeepsData(disk, OpFor(Where(disk, id).msg, v, now, reason))
  {
    assert Q.PendingCopy(disk, id, Where(disk, id).dir);
  }

  /** Operations on other messages, and the periodic scan, leave this record alone. */
  lemma OthersLeaveTheRecord(l: Q.Limits, id: Q.Id, q: Q.QState, op: Q.Op)
    requires Tracked(q.disk, id) && (op.OpSweep? || Q.IdOf(op) != id)
    ensures var after := Q.Exec(l, q, op).disk; Q.OneHome(after) && Where(after, id) == Where(q.disk, id)
  {
    Q.ExecKeepsOneHome(l, q, op);
    if op.OpSweep? {
      SweepLeavesTheRecord(id, q.disk, op.now, op.stuck);
    } else {
      OperationLeavesTheRecord(l, id, q, op);
    }
  }

  lemma OperationLeavesTheRecord(l: Q.Limits, id: Q.Id, q: Q.QState, op: Q.Op)
    requires !op.OpSweep? && Q.IdOf(op) != id
    ensures Where(Q.Exec(l, q, op).disk, id) == Where(q.disk, id)
  {
    Q.ExecLeavesOthers(l, q, op, Q.Slot(Q.Inbound, id));
    Q.ExecLeavesOthers(l, q, op, Q.Slot(Q.Retry, id));
    Q.ExecLeavesOthers(l, q, op, Q.Slot(Q.Legacy, id));
    Q.ExecLeavesOthers(l, q, op, Q.Slot(Q.Sent, id));
    Q.ExecLeavesOthers(l, q, op, Q.Slot(Q.Dlq, id));
  }

  lemma SweepLeavesTheRecord(id: Q.Id, disk: Q.Disk, now: int, stuck: set<Q.Slot>)
    requires Tracked(disk, id)
    ensures Where(Q.Swept(disk, now, stuck), id) == Where(disk, id)
  {
    var home := Q.Slot(Where(disk, id).dir, id);
    assert home in disk && !Q.SweptOut(disk, home, now);
    forall d: Q.Dir | Q.Slot(d, id) in disk ensures d == home.dir {}
  }

  // ----- Conservation over whole runs --------------------------------------

  /** Where the original recipients are, all of them, with multiplicity. */
  ghost predicate Conserved(id: Q.Id, original: multiset<string>, life: Life) {
    original == life.delivered + life.dropped + Pending(Where(life.q.disk, id)) + Dead(Where(life.q.disk, id))
  }

  ghost predicate AttemptsBound(cfg: D.Config, id: Q.Id, start: int, life: Life) {
    var place := Where(life.q.disk, id);
    && (IsPending(place) ==> place.msg.attempts == start + life.retries)
    && (cfg.maxAttempts > 0 && life.retries > 0 ==> start + life.retries <= cfg.maxAttempts)
  }

  /** Every recipient of a round arrives, goes, is bounced late, or is kept. */
  lemma RoundAccountsForAll(cfg: D.Config, id: Q.Id, life: Life, e: Event)
    requires e.Round? && Enabled(cfg, id, life, e)
    ensures var rcpts := Where(life.q.disk, id).msg.rcptTo;
      multiset(rcpts) == D.Select(rcpts, e.disp, D.Arrived) + D.Select(rcpts, e.disp, D.Gone) +
        (Kept(e.verdict) + multiset(e.late))
  {
    var msg := Where(life.q.disk, id).msg;
    DispositionsPartition(msg.rcptTo, e.disp);
    VerdictKeepsTheWaiting(cfg, msg, e.now, e.disp, e.verdict, e.late);
  }

  /** The bookkeeping of one round, on multisets alone. */
  lemma LedgerBalances(original: multiset<string>, before: Life, after: Life, id: Q.Id,
                       arrived: multiset<string>, gone: multiset<string>, late: multiset<string>,
                       kept: multiset<string>)
    requires Conserved(id, original, before) && IsPending(Where(before.q.disk, id))
    requires Pending(Where(before.q.disk, id)) == arrived + gone + (kept + late)
    requires after.delivered == before.delivered + arrived && after.dropped == before.dropped + gone + late
    requires Pending(Where(after.q.disk, id)) + Dead(Where(after.q.disk, id)) == kept
    ensures Conserved(id, original, after)
    ensures Pending(Where(after.q.disk, id)) <= Pending(Where(before.q.disk, id))
  {
    var p, d := Pending(Where(after.q.disk, id)), Dead(Where(after.q.disk, id));
    assert Dead(Where(before.q.disk, id)) == multiset{};
    calc {
      original;
      before.delivered + before.dropped + (arrived + gone + (kept + late));
      (before.delivered + arrived) + (before.dropped + gone + late) + (p + d);
      after.delivered + after.dropped + p + d;
    }
  }

  lemma RoundConserves(l: Q.Limits, id: Q.Id, original: multiset<string>, life: Life, e: Event)
    requires e.Round? && Tracked(life.q.disk, id) && Conserved(id, original, life)
    requires IsPending(Where(life.q.disk, id)) && |e.disp| == |Where(life.q.disk, id).msg.rcptTo|
    requires var rcpts := Where(life.q.disk, id).msg.rcptTo;
      multiset(rcpts) == D.Select(rcpts, e.disp, D.Arrived) + D.Select(rcpts, e.disp, D.Gone) +
        (Kept(e.verdict) + multiset(e.late))
    ensures var after := Next(l, id, life, e);
      && Tracked(after.q.disk, id) && Conserved(id, original, after)
      && Pending(Where(after.q.disk, id)) <= Pending(Where(life.q.disk, id))
  {
    var rcpts, after := Where(life.q.disk, id).msg.rcptTo, Next(l, id, life, e);
    RoundMovesTheRecord(l, id, life.q, e.verdict, e.now, e.reason);
    MovedHoldsTheKept(Where(life.q.disk, id).msg, e.verdict, e.now, e.reason);
    LedgerBalances(original, life, after, id, D.Select(rcpts, e.disp, D.Arrived), D.Select(rcpts, e.disp, D.Gone),
                   multiset(e.late), Kept(e.verdict));
  }

  lemma RoundBoundsAttempts(l: Q.Limits, cfg: D.Config, id: Q.Id, start: int, life: Life, e: Event)
    requires e.Round? && Tracked(life.q.disk, id) && AttemptsBound(cfg, id, start, life) && Enabled(cfg, id, life, e)
    ensures AttemptsBound(cfg, id, start, Next(l, id, life, e))
  {
    RoundMovesTheRecord(l, id, life.q, e.verdict, e.now, e.reason);
  }

  lemma StepConserves(l: Q.Limits, cfg: D.Config, id: Q.Id, original: multiset<string>, start: int, life: Life,
                      e: Event)
    requires Tracked(life.q.disk, id) && Conserved(id, original, life) && AttemptsBound(cfg, id, start, life)
    requires Enabled(cfg, id, life, e)
    ensures var after := Next(l, id, life, e);
      && Tracked(after.q.disk, id) && Conserved(id, original, after) && AttemptsBound(cfg, id, start, after)
      && Pending(Where(after.q.disk, id)) <= Pending(Where(life.q.disk, id))
      && life.delivered <= after.delivered && life.dropped <= after.dropped
  {
    match e
    case Round(_, _, _, _, _) =>
      RoundAccountsForAll(cfg, id, life, e);
      RoundConserves(l, id, original, life, e);
      RoundBoundsAttempts(l, cfg, id, start, life, e);
    case Other(op) =>
      OthersLeaveTheRecord(l, id, life.q, op);
  }

  /**
   * Over any run every original recipient stays accounted for: delivered,
   * finally dropped, dead-lettered or pending. Pending only shrinks, what was
   * delivered or dropped stays so, and the message is retried at most up to
   * the configured number of attempts.
   */
  lemma {:induction false} RunsConserveRecipients(l: Q.Limits, cfg: D.Config, id: Q.Id, original: multiset<string>,
                                                  start: int,
                                                  life: Life, events: seq<Event>)
    requires Tracked(life.q.disk, id) && Conserved(id, original, life) && AttemptsBound(cfg, id, start, life)
    requires RunEnabled(l, cfg, id, life, events)
    ensures var after := RunAll(l, id, life, events);
      && Tracked(after.q.disk, id) && Conserved(id, original, after) && AttemptsBound(cfg, id, start, after)
      && Pending(Where(after.q.disk, id)) <= Pending(Where(life.q.disk, id))
      && life.delivered <= after.delivered && life.dropped <= after.dropped
    decreases |events|
  {
    if events != [] {
      StepConserves(l, cfg, id, original, start, life, events[0]);
      RunsConserveRecipients(l, cfg, id, original, start, Next(l, id, life, events[0]), events[1..]);
    }
  }

  /** The four places, as sets of recipients, do not overlap. */
  ghost predicate ExactlyOnePlace(id: Q.Id, life: Life) {
    life.delivered !! life.dropped !! Pending(Where(life.q.disk, id)) !! Dead(Where(life.q.disk, id))
  }

  ghost predicate Distinct(m: multiset<string>) { forall r :: m[r] <= 1 }

  lemma DistinctPartsAreDisjoint(id: Q.Id, original: multiset<string>, life: Life)
    requires Distinct(original) && Conserved(id, original, life)
    ensures ExactlyOnePlace(id, life)
    ensures forall r :: r in original <==>
      r in life.delivered || r in life.dropped || r in Pending(Where(life.q.disk, id)) ||
        r in Dead(Where(life.q.disk, id))
  {
    forall r
      ensures original[r] == life.delivered[r] + life.dropped[r] + Pending(Where(life.q.disk, id))[r] +
        Dead(Where(life.q.disk, id))[r] {}
  }

  /**
   * The headline for a freshly queued message with distinct recipients: after
   * any run each recipient is in exactly one place, at most MaxAttempts retries
   * happened, and the next round attempts nobody who was already delivered.
   */
  lemma FreshMessageEndsInExactlyOnePlace(l: Q.Limits, cfg: D.Config, id: Q.Id, q: Q.QState, events: seq<Event>)
    requires Tracked(q.disk, id) && IsPending(Where(q.disk, id)) && Where(q.disk, id).msg.attempts == 0
    requires Distinct(Pending(Where(q.disk, id)))
    requires RunEnabled(l, cfg, id, Life(q, multiset{}, multiset{}, 0), events)
    ensures var original := Pending(Where(q.disk, id));
      var after := RunAll(l, id, Life(q, multiset{}, multiset{}, 0), events);
      && ExactlyOnePlace(id, after)
      && (forall r :: r in original <==>
            r in after.delivered || r in after.dropped || r in Pending(Where(after.q.disk, id)) ||
              r in Dead(Where(after.q.disk, id)))
      && (cfg.maxAttempts > 0 ==> after.retries <= cfg.maxAttempts)
      && (IsPending(Where(after.q.disk, id)) ==> forall r ::
          r in Where(after.q.disk, id).msg.rcptTo ==> r !in after.delivered)
  {
    var original, life := Pending(Where(q.disk, id)), Life(q, multiset{}, multiset{}, 0);
    RunsConserveRecipients(l, cfg, id, original, 0, life, events);
    DistinctPartsAreDisjoint(id, original, RunAll(l, id, life, events));
  }

  /** The message is acknowledged as sent exactly when no recipient is left waiting. */
  lemma AckOnlyWhenNothingRemains(cfg: D.Config, msg: Q.Message, now: int, disp: seq<D.Disposition>, v: D.Verdict,
                                  late: seq<string>)
    requires |disp| == |msg.rcptTo|
    requires D.VerdictFollows(cfg, msg, now, D.Summarize(msg.rcptTo, disp), v, late)
    ensures v == D.Ack <==> !D.Has(disp, D.Waiting)
  {
    D.SummaryMeaning(msg.rcptTo, disp);
    if D.Has(disp, D.Waiting) {
      var i :| 0 <= i < |disp| && D.Of(D.Waiting, disp[i]);
      assert D.Of(D.IsHeld, disp[i]) || D.Of(D.IsFailing, disp[i]);
    } else {
      assert forall i :: 0 <= i < |disp| ==> !D.Of(D.Waiting, disp[i]);
    }
  }

  /** A recipient whose status is unknown is never scheduled again, by Retry or by Defer. */
  lemma UnknownIsNeverRescheduled(cfg: D.Config, msg: Q.Message, now: int, disp: seq<D.Disposition>, v: D.Verdict,
                                  late: seq<string>, p: nat)
    requires p < |disp| == |msg.rcptTo| && D.Of(D.UnknownStatus, disp[p])
    requires D.VerdictFollows(cfg, msg, now, D.Summarize(msg.rcptTo, disp), v, late)
    ensures !v.Retry? && !v.Ack? && (v.Defer? ==> msg.rcptTo[p] !in v.rcpts)
  {
    D.SummaryMeaning(msg.rcptTo, disp);
    assert D.Has(disp, D.UnknownStatus);
    assert D.Of(D.IsFailing, disp[p]) && D.Has(disp, D.IsFailing);
    assert msg.rcptTo[p] in D.FailingNames(msg.rcptTo, disp);
  }

  /**
   * handleMessage with the store attached: the round the dispatcher computes is
   * one of the rounds above, and its queue operation takes the store to the
   * state the run continues from. `io` mutations suffice for every plan.
   */
  method ProcessMessage(store: Q.Store, cfg: D.Config, id: Q.Id, routing: L.Routing, envs: seq<D.RcptEnv>,
                        peers: D.Peers,
                        batchNow: D.Instant, now: D.Instant, reason: string, io: nat)
    returns (e: Event)
    requires Tracked(store.disk, id) && IsPending(Where(store.disk, id))
    requires D.Routed(routing, Where(store.disk, id).msg.rcptTo, envs) && D.Talkative(peers) && io >= 4
    modifies store
    ensures e.Round?
    ensures
      var msg := Where(old(store.disk), id).msg;
      |e.disp| == |msg.rcptTo| &&
      forall p :: 0 <= p < |e.disp| ==>
        var first := D.FirstPass(cfg, msg.createdAt, envs);
        e.disp[p] == D.FinalOf(msg.rcptTo, first, peers, batchNow, p) &&
          D.BatchConcludes(peers, msg.rcptTo, first, p, e.disp[p])
    ensures forall life: Life :: life.q == old(store.View()) ==>
      Enabled(cfg, id, life, e) && Next(store.limits, id, life, e).q == store.View()
  {
    var msg := Where(store.disk, id).msg;
    var v, late, disp := D.HandleMessage(cfg, msg, routing, envs, peers, batchNow, now);
    e := Round(disp, v, late, now, reason);
    Persist(store, msg, v, now, reason, io);
  }

  /** The verdict's queue operation, all of whose steps the disk performs. */
  method Persist(store: Q.Store, msg: Q.Message, v: D.Verdict, now: int, reason: string, io: nat)
    requires io >= 4
    modifies store
    ensures store.View() == Q.Exec(store.limits, old(store.View()), OpFor(msg, v, now, reason))
  {
    var r;
    match v
    case Ack => r := store.AckSent(msg.id, msg, now, io);
    case Defer(rcpts, delay) => r := store.Reschedule(msg.(rcptTo := rcpts), delay, None, now, io);
    case Retry(rcpts, delay) => r := store.Reschedule(msg.(rcptTo := rcpts), delay, Some(reason), now, io);
    case DeadLetter(rcpts) => r := store.Fail(msg.(rcptTo := rcpts), reason, now, io);
  }

  // ----- Repeated recipients -----------------------------------------------

  ghost predicate PossibleRound(cfg: D.Config, msg: Q.Message, now: int, disp: seq<D.Disposition>, v: D.Verdict,
                                late: seq<string>) {
    && |disp| == |msg.rcptTo| && (forall i :: 0 <= i < |disp| ==> !disp[i].Queued?)
    && D.VerdictFollows(cfg, msg, now, D.Summarize(msg.rcptTo, disp), v, late)
  }

  /** The round puts no recipient in two places. */
  ghost predicate Separates(msg: Q.Message, disp: seq<D.Disposition>, v: D.Verdict, late: seq<string>)
    requires |disp| == |msg.rcptTo|
  {
    D.Select(msg.rcptTo, disp, D.Arrived) !! (D.Select(msg.rcptTo, disp, D.Gone) + multiset(late)) !! Kept(v)
  }

  function Listing(rcpts: seq<string>, disp: seq<D.Disposition>, kind: D.Kind): seq<string>
    requires |rcpts| == |disp|
  {
    if rcpts == [] then [] else
      var n := |rcpts| - 1;
      Listing(rcpts[..n], disp[..n], kind) + (if D.Of(kind, disp[n]) then [rcpts[n]] else [])
  }

  lemma {:induction false} ListingSelects(rcpts: seq<string>, disp: seq<D.Disposition>, kind: D.Kind)
    requires |rcpts| == |disp|
    ensures multiset(Listing(rcpts, disp, kind)) == D.Select(rcpts, disp, kind)
    ensures forall p :: 0 <= p < |disp| && D.Of(kind, disp[p]) ==> rcpts[p] in D.Select(rcpts, disp, kind)
  {
    if rcpts != [] {
      var n := |rcpts| - 1;
      var a, b := rcpts[..n], disp[..n];
      ListingSelects(a, b, kind);
      SelectLast(rcpts, disp, kind);
      forall p | 0 <= p < |disp| && D.Of(kind, disp[p]) ensures rcpts[p] in D.Select(rcpts, disp, kind) {
        if p < n { assert D.Of(kind, b[p]) && a[p] == rcpts[p] && rcpts[p] in D.Select(a, b, kind); }
      }
    }
  }

  lemma {:induction false} NoDupIsDistinct(s: seq<string>)
    ensures NoDup(s) <==> Distinct(multiset(s))
  {
    if s != [] {
      var n := |s| - 1;
      NoDupIsDistinct(s[..n]);
      assert s == s[..n] + [s[n]];
      forall r ensures multiset(s)[r] == multiset(s[..n])[r] + (if r == s[n] then 1 else 0) {}
      if NoDup(s) {
        assert s[n] !in s[..n];
      } else if NoDup(s[..n]) {
        var i, j :| 0 <= i < j < |s| && s[i] == s[j];
        assert j == n && s[..n][i] == s[n];
        assert multiset(s)[s[n]] >= 2;
      } else {
        var r :| multiset(s[..n])[r] > 1;
        assert multiset(s)[r] > 1;
      }
    }
  }

  /** Every possible round keeps the places apart exactly when the recipients are distinct. */
  lemma ExactlyOnePlaceNeedsDistinctRecipients(cfg: D.Config, msg: Q.Message, now: int)
    ensures NoDup(msg.rcptTo) <==>
      forall disp: seq<D.Disposition>, v: D.Verdict, late: seq<string> ::
        PossibleRound(cfg, msg, now, disp, v, late) ==> Separates(msg, disp, v, late)
  {
    if NoDup(msg.rcptTo) {
      forall disp: seq<D.Disposition>, v: D.Verdict, late: seq<string> | PossibleRound(cfg, msg, now, disp, v, late)
        ensures Separates(msg, disp, v, late)
      {
        DistinctRoundSeparates(cfg, msg, now, disp, v, late);
      }
    } else {
      RepeatedRecipientSplits(cfg, msg, now);
    }
  }

  lemma DistinctRoundSeparates(cfg: D.Config, msg: Q.Message, now: int, disp: seq<D.Disposition>, v: D.Verdict,
                               late: seq<string>)
    requires NoDup(msg.rcptTo) && PossibleRound(cfg, msg, now, disp, v, late)
    ensures Separates(msg, disp, v, late)
  {
    NoDupIsDistinct(msg.rcptTo);
    DispositionsPartition(msg.rcptTo, disp);
    VerdictKeepsTheWaiting(cfg, msg, now, disp, v, late);
    SmallCountsSeparate(multiset(msg.rcptTo), D.Select(msg.rcptTo, disp, D.Arrived),
                        D.Select(msg.rcptTo, disp, D.Gone) + multiset(late), Kept(v));
  }

  lemma SmallCountsSeparate(all: multiset<string>, a: multiset<string>, b: multiset<string>, c: multiset<string>)
    requires Distinct(all) && all == a + b + c
    ensures a !! b !! c
  {
    forall r ensures all[r] == a[r] + b[r] + c[r] {}
  }

  /** The counterexample: one occurrence delivered, the other held. */
  lemma RepeatedRecipientSplits(cfg: D.Config, msg: Q.Message, now: int)
    requires !NoDup(msg.rcptTo)
    ensures exists disp: seq<D.Disposition>, v: D.Verdict, late: seq<string> ::
      PossibleRound(cfg, msg, now, disp, v, late) && !Separates(msg, disp, v, late)
  {
    var rcpts := msg.rcptTo;
    var i, j :| 0 <= i < j < |rcpts| && rcpts[i] == rcpts[j];
    var disp, s := SplitDispositions(rcpts, i, j), D.Summarize(rcpts, SplitDispositions(rcpts, i, j));
    SplitSummary(rcpts, disp, i, j);
    var v := D.Defer(Listing(rcpts, disp, D.Waiting), 0);
    assert D.VerdictFollows(cfg, msg, now, s, v, []);
    assert PossibleRound(cfg, msg, now, disp, v, []);
    assert rcpts[i] in D.Select(rcpts, disp, D.Arrived) && rcpts[i] in Kept(v);
    assert !Separates(msg, disp, v, []);
  }

  function SplitDispositions(rcpts: seq<string>, i: nat, j: nat): (disp: seq<D.Disposition>)
    requires i < j < |rcpts|
    ensures |disp| == |rcpts| && forall k :: 0 <= k < |disp| ==>
      disp[k] == if k == j then D.Held(D.Limit, 1) else D.Delivered
  {
    seq(|rcpts|, k => if k == j then D.Held(D.Limit, 1) else D.Delivered)
  }

  lemma SplitSummary(rcpts: seq<string>, disp: seq<D.Disposition>, i: nat, j: nat)
    requires |disp| == |rcpts| && i < |disp| && j < |disp| && disp[i].Delivered? && disp[j].Held?
    requires forall k :: 0 <= k < |disp| ==> !disp[k].Failing?
    ensures !D.Summarize(rcpts, disp).anyFailing && D.Summarize(rcpts, disp).held
    ensures multiset(Listing(rcpts, disp, D.Waiting)) == D.Summarize(rcpts, disp).waiting
    ensures rcpts[i] in D.Select(rcpts, disp, D.Arrived) && rcpts[j] in D.Summarize(rcpts, disp).waiting
  {
    ListingSelects(rcpts, disp, D.Waiting);
    D.SummaryMeaning(rcpts, disp);
    assert D.Of(D.IsHeld, disp[j]) && D.Of(D.Waiting, disp[j]);
    assert rcpts[i] in D.Select(rcpts, disp, D.Arrived) by {
      ListingSelects(rcpts, disp, D.Arrived);
      assert D.Of(D.Arrived, disp[i]);
    }
  }
}
