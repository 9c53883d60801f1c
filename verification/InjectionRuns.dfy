/**
 * HTTP injection over the durable queue. Requests are interleaved with any
 * operations of the store, each of which may stop after any prefix of its
 * file-system steps; the enqueue of a request is the store's own, with its
 * duplicate test and its capacity check.
 */
module InjectionRuns {
  import opened Common
  import Q = QueueStore
  import QC = QueueCrashes
  import H = HttpInjection

  datatype Setup = Setup(limits: Q.Limits, ttl: int)

  /** The idempotency records and the queue. */
  datatype World = World(records: map<string, H.Record>, q: Q.QState)

  /** A request with what its enqueue meets, or any other operation of the store. */
  datatype Event =
    | Inject(req: H.Request, rcpts: seq<string>, now: int, probe: Q.DiskProbe, io: nat)
    | Store(event: QC.Event)

  /** The record a request enqueues; its data stands for everything the request digest covers. */
  function MessageOf(req: H.Request, rcpts: seq<string>): Q.Message {
    Q.Message(H.IdOf(req.principal, req.key), rcpts, req.payload, 0, 0, 0, 0, "", None)
  }

  ghost function Enqueue(e: Event): QC.Event
    requires e.Inject?
  {
    QC.Event(Q.OpEnqueue(MessageOf(e.req, e.rcpts), e.now, e.probe), e.io, false)
  }

  ghost predicate Enqueues(c: Setup, q: Q.QState, e: Event)
    requires e.Inject?
  {
    var plan := Q.EnqueuePlan(c.limits, q, MessageOf(e.req, e.rcpts), e.now, e.probe).0;
    plan.outcome == Q.Ok && |plan.steps| <= e.io
  }

  function View(w: World): H.State { H.State(w.records, map[]) }

  /** What a request leaves and answers. */
  ghost function Answer(c: Setup, w: World, e: Event): (World, H.Response)
    requires e.Inject?
  {
    var req := e.req;
    if !H.ValidKey(req.key) then (w, H.BadKey)
    else
      var found, s1 := H.LookupResult(View(w), req), H.AfterLookup(View(w), req);
      if found.Broken? then (World(s1.records, w.q), H.Unavailable)
      else if found.Hit? && found.record.payload != req.payload then (World(s1.records, w.q), H.Conflict)
      else if found.Hit? && found.record.committed then (World(s1.records, w.q), H.Replayed(found.record.messageId))
      else
        var s2 := H.AfterPrepare(s1, req, c.ttl);
        if !req.fate.prepare.Written? then (World(s2.records, w.q), H.Unavailable)
        else
          var q := QC.Happen(c.limits, w.q, Enqueue(e));
          if !Enqueues(c, w.q, e) then (World(s2.records, q), H.Unavailable)
          else
            (World(H.AfterCommit(s2, req, c.ttl).records, q),
             if req.fate.rereadOk && req.fate.commit.Written? then H.Accepted(H.IdOf(req.principal, req.key))
               else H.Unavailable)
  }

  ghost function Next(c: Setup, w: World, e: Event): World {
    if e.Inject? then Answer(c, w, e).0 else World(w.records, QC.Happen(c.limits, w.q, e.event))
  }

  ghost function RunAll(c: Setup, w: World, es: seq<Event>): World
    decreases |es|
  {
    if es == [] then w else RunAll(c, Next(c, w, es[0]), es[1..])
  }

  // ----- One message in the store ---------------------------------------------------

  /** Every file of the message is readable, holds the payload and is not on hold. */
  ghost predicate Holds(disk: Q.Disk, id: Q.Id, payload: H.Payload) {
    forall s :: s in disk && s.id == id ==> IsCopy(disk[s], payload)
  }

  predicate IsCopy(f: Q.File, payload: H.Payload) { f.Decoded? && f.msg.data == payload && f.msg.quarantine.None? }

  /** The worker hands an operation on the message the record it read, and no other producer enqueues under its id. */
  ghost predicate Handed(disk: Q.Disk, id: Q.Id, op: Q.Op) {
    op.OpSweep? || Q.IdOf(op) != id ||
    (!op.OpEnqueue? &&
     (op.OpAck? || op.OpRetry? || op.OpDefer? || op.OpFail? ==>
        Q.Present(disk, id) ==> exists s :: s in disk && s.id == id && IsRead(disk[s], op.msg)))
  }

  predicate IsRead(f: Q.File, m: Q.Message) { f.Decoded? && f.msg.data == m.data && f.msg.quarantine == m.quarantine }

  ghost predicate SameFiles(a: Q.Disk, b: Q.Disk, id: Q.Id) {
    forall s: Q.Slot :: s.id == id ==> (s in a <==> s in b) && (s in a ==> a[s] == b[s])
  }

  /** The message keeps its payload, and is there afterwards exactly when it was before. */
  ghost predicate Keeps(a: Q.Disk, b: Q.Disk, id: Q.Id, payload: H.Payload) {
    Holds(b, id, payload) && (Q.Present(a, id) <==> Q.Present(b, id))
  }

  lemma SameFilesKeep(a: Q.Disk, b: Q.Disk, id: Q.Id, payload: H.Payload)
    requires SameFiles(a, b, id) && Holds(a, id, payload)
    ensures Keeps(a, b, id, payload)
  {
    if Q.Present(a, id) {
      var d: Q.Dir :| Q.Slot(d, id) in a;
      assert Q.Slot(d, id) in b;
    }
    if Q.Present(b, id) {
      var d: Q.Dir :| Q.Slot(d, id) in b;
      assert Q.Slot(d, id) in a;
    }
  }

  lemma OtherOp(l: Q.Limits, q: Q.QState, ev: QC.Event, id: Q.Id)
    requires !ev.op.OpSweep? && Q.IdOf(ev.op) != id
    ensures SameFiles(q.disk, QC.Happen(l, q, ev).disk, id)
  {
    var steps := Q.PlanOf(l, q, ev.op).0.steps;
    StepsNameTheirId(l, q, ev.op);
    forall s: Q.Slot | s.id == id
      ensures (s in q.disk <==> s in QC.Happen(l, q, ev).disk)
      ensures (s in q.disk ==> q.disk[s] == QC.Happen(l, q, ev).disk[s])
    {
      Q.RunKeeps(q.disk, Q.Prefix(steps, ev.io), s);
    }
  }

  lemma StepsNameTheirId(l: Q.Limits, q: Q.QState, op: Q.Op)
    requires !op.OpSweep?
    ensures
      var steps := Q.PlanOf(l, q, op).0.steps;
      forall i :: 0 <= i < |steps| ==> steps[i].slot.id == Q.IdOf(op)
  {
  }

  lemma SweepKeeps(disk: Q.Disk, now: int, stuck: set<Q.Slot>, id: Q.Id, payload: H.Payload)
    requires Holds(disk, id, payload)
    ensures SameFiles(disk, Q.Swept(disk, now, stuck), id)
  {
    forall s | s in disk && s.id == id ensures !Q.SweptOut(disk, s, now) { assert IsCopy(disk[s], payload); }
  }

  lemma MoveKeeps(disk: Q.Disk, id: Q.Id, target: Q.Dir, msg: Q.Message, k: nat, payload: H.Payload)
    requires Q.IsPendingState(Q.MessageState(disk, id)) && k <= |Q.Move(id, target, msg)|
    requires target == Q.Retry || target == Q.Sent || target == Q.Dlq
    requires Holds(disk, id, payload) && IsCopy(Q.Decoded(msg), payload)
    ensures Keeps(disk, Q.Run(disk, Q.Move(id, target, msg)[..k]), id, payload)
  {
    var after := Q.Run(disk, Q.Move(id, target, msg)[..k]);
    Q.MoveStoppedAnywhere(disk, id, target, msg, k);
    PendingIsPresent(disk, id);
    forall s | s in after && s.id == id ensures IsCopy(after[s], payload) {
      assert s == Q.Slot(s.dir, id);
    }
  }

  lemma PendingIsPresent(disk: Q.Disk, id: Q.Id)
    requires Q.MessageState(disk, id) != Q.StNone
    ensures Q.Present(disk, id)
  {
    assert Q.Slot(Q.Inbound, id) in disk || Q.Slot(Q.Retry, id) in disk || Q.Slot(Q.Legacy, id) in disk ||
           Q.Slot(Q.Sent, id) in disk || Q.Slot(Q.Dlq, id) in disk;
  }

  lemma OwnMove(l: Q.Limits, q: Q.QState, op: Q.Op, k: nat, id: Q.Id, payload: H.Payload)
    requires op.OpAck? || op.OpRetry? || op.OpDefer? || op.OpFail?
    requires Q.IdOf(op) == id && Holds(q.disk, id, payload) && Handed(q.disk, id, op)
    requires k <= |Q.PlanOf(l, q, op).0.steps|
    ensures Keeps(q.disk, Q.Run(q.disk, Q.PlanOf(l, q, op).0.steps[..k]), id, payload)
  {
    var steps := Q.PlanOf(l, q, op).0.steps;
    if steps == [] {
      assert steps[..k] == [];
    } else {
      PendingIsPresent(q.disk, id);
      var s :| s in q.disk && s.id == id && IsRead(q.disk[s], op.msg);
      assert IsCopy(q.disk[s], payload);
      var target, msg := steps[0].slot.dir, steps[0].file.msg;
      assert steps == Q.Move(id, target, msg);
      MoveKeeps(q.disk, id, target, msg, k, payload);
    }
  }

  lemma OwnRequeue(l: Q.Limits, q: Q.QState, op: Q.Op, k: nat, id: Q.Id, payload: H.Payload)
    requires op.OpRequeue? && op.id == id && Holds(q.disk, id, payload) && k <= |Q.PlanOf(l, q, op).0.steps|
    ensures Keeps(q.disk, Q.Run(q.disk, Q.PlanOf(l, q, op).0.steps[..k]), id, payload)
  {
    var steps := Q.PlanOf(l, q, op).0.steps;
    if k == 0 {
      assert steps[..k] == [];
    } else {
      var dir, msg := Q.DirFor(op.name).value, steps[0].file.msg;
      var after := Q.Run(q.disk, steps[..k]);
      QC.StoppedRequeue(q.disk, dir, id, msg, k);
      assert Q.Slot(dir, id) in q.disk && IsCopy(q.disk[Q.Slot(dir, id)], payload);
      assert Q.Slot(Q.Inbound, id) in after;
    }
  }

  /** No operation of the store loses the message or changes its payload, wherever it stops. */
  lemma StoreKeeps(l: Q.Limits, q: Q.QState, ev: QC.Event, id: Q.Id, payload: H.Payload)
    requires Holds(q.disk, id, payload) && Handed(q.disk, id, ev.op)
    ensures Keeps(q.disk, QC.Happen(l, q, ev).disk, id, payload)
  {
    var op, after := ev.op, QC.Happen(l, q, ev).disk;
    if op.OpSweep? {
      SweepKeeps(q.disk, op.now, op.stuck, id, payload);
      SameFilesKeep(q.disk, after, id, payload);
    } else if Q.IdOf(op) != id {
      OtherOp(l, q, ev, id);
      SameFilesKeep(q.disk, after, id, payload);
    } else {
      var steps := Q.PlanOf(l, q, op).0.steps;
      QC.PrefixIsASlice(steps, ev.io);
      if op.OpRequeue? {
        OwnRequeue(l, q, op, Min(ev.io, |steps|), id, payload);
      } else if op.OpDelete? {
        HeldNowhere(q.disk, id, op.dryRun, payload);
      } else {
        OwnMove(l, q, op, Min(ev.io, |steps|), id, payload);
      }
    }
  }

  /** Only messages on hold can be deleted. */
  lemma HeldNowhere(disk: Q.Disk, id: Q.Id, dryRun: bool, payload: H.Payload)
    requires Holds(disk, id, payload)
    ensures Q.DeletePlan(disk, id, dryRun).steps == []
  {
    if Q.Slot(Q.Inbound, id) in disk { assert IsCopy(disk[Q.Slot(Q.Inbound, id)], payload); }
  }

  // ----- One key -------------------------------------------------------------------------

  /** The claim under the key fixes the payload of the message, and a committed claim has its message in the store. */
  ghost predicate Inv(w: World, p: H.Username, key: string) {
    var path, id := H.PathOf(p, key), H.IdOf(p, key);
    && (Q.Present(w.q.disk, id) ==> path in w.records)
    && (path in w.records ==> Claimed(w.records[path], p, key) && Holds(w.q.disk, id, w.records[path].payload))
    && (path in w.records && w.records[path].committed ==> Q.Present(w.q.disk, id))
  }

  predicate Claimed(r: H.Record, p: H.Username, key: string) {
    r.principal == p && r.key == key && r.messageId == H.IdOf(p, key)
  }

  predicate Own(req: H.Request, p: H.Username, key: string) { req.principal == p && req.key == key }

  /** The request does not meet an expired record of the key. */
  predicate InTime(w: World, p: H.Username, key: string, e: Event) {
    e.Inject? && Own(e.req, p, key) ==> !H.Expired(View(w), H.PathOf(p, key), e.req.lookupAt)
  }

  ghost predicate Allowed(w: World, p: H.Username, key: string, e: Event) {
    InTime(w, p, key, e) && (e.Store? ==> Handed(w.q.disk, H.IdOf(p, key), e.event.op))
  }

  lemma OtherKeys(req: H.Request, p: H.Username, key: string)
    requires H.ValidKey(key) && H.ValidKey(req.key) && !Own(req, p, key)
    ensures H.PathOf(req.principal, req.key) != H.PathOf(p, key) && H.IdOf(req.principal, req.key) != H.IdOf(p, key)
  {
    H.IdIsPath(p, key);
    H.IdIsPath(req.principal, req.key);
    if H.PathOf(req.principal, req.key) == H.PathOf(p, key) { H.SplitAtNul(req.principal, req.key, p, key); }
  }

  /** The record under another key stays. */
  lemma OtherRecord(c: Setup, w: World, e: Event, path: string)
    requires e.Inject? && H.PathOf(e.req.principal, e.req.key) != path
    ensures H.SameRecord(View(w), View(Answer(c, w, e).0), path)
  {
    var s1 := H.AfterLookup(View(w), e.req);
    var s2 := H.AfterPrepare(s1, e.req, c.ttl);
    assert H.SameRecord(View(w), s1, path) && H.SameRecord(s1, s2, path);
    assert H.SameRecord(s2, H.AfterCommit(s2, e.req, c.ttl), path);
  }

  lemma OtherFiles(c: Setup, w: World, e: Event, id: Q.Id)
    requires e.Inject? && H.IdOf(e.req.principal, e.req.key) != id
    ensures SameFiles(w.q.disk, Answer(c, w, e).0.q.disk, id)
  {
    OtherOp(c.limits, w.q, Enqueue(e), id);
    var n := Answer(c, w, e).0.q;
    assert n == w.q || n == QC.Happen(c.limits, w.q, Enqueue(e));
  }

  lemma OtherRequest(c: Setup, w: World, e: Event, p: H.Username, key: string)
    requires Inv(w, p, key) && e.Inject? && H.ValidKey(key) && !Own(e.req, p, key)
    ensures Inv(Answer(c, w, e).0, p, key)
  {
    if H.ValidKey(e.req.key) {
      var path, id := H.PathOf(p, key), H.IdOf(p, key);
      OtherKeys(e.req, p, key);
      OtherRecord(c, w, e, path);
      OtherFiles(c, w, e, id);
      SameInv(w, Answer(c, w, e).0, p, key);
    }
  }

  lemma SameInv(w: World, n: World, p: H.Username, key: string)
    requires Inv(w, p, key) && SameFiles(w.q.disk, n.q.disk, H.IdOf(p, key))
    requires H.SameRecord(View(w), View(n), H.PathOf(p, key))
    ensures Inv(n, p, key)
  {
    var path, id := H.PathOf(p, key), H.IdOf(p, key);
    if path in w.records { SameFilesKeep(w.q.disk, n.q.disk, id, w.records[path].payload); }
  }

  /** The enqueue of a claimed request: afterwards every copy holds its payload, and on success there is one. */
  lemma OwnEnqueue(c: Setup, q: Q.QState, e: Event)
    requires e.Inject? && H.ValidKey(e.req.key) && Holds(q.disk, H.IdOf(e.req.principal, e.req.key), e.req.payload)
    ensures
      var id, after := H.IdOf(e.req.principal, e.req.key), QC.Happen(c.limits, q, Enqueue(e)).disk;
      && Holds(after, id, e.req.payload) && (Q.Present(q.disk, id) ==> Q.Present(after, id))
      && (Enqueues(c, q, e) ==> Q.Present(after, id))
  {
    var id, msg := H.IdOf(e.req.principal, e.req.key), MessageOf(e.req, e.rcpts);
    var steps := Q.EnqueuePlan(c.limits, q, msg, e.now, e.probe).0.steps;
    var after := QC.Happen(c.limits, q, Enqueue(e)).disk;
    IdIsNotBlank(e.req.principal, e.req.key);
    if steps == [] || e.io == 0 {
      assert Q.Prefix(steps, e.io) == [];
      if Q.MessageState(q.disk, id) != Q.StNone { PendingIsPresent(q.disk, id); }
    } else {
      var slot, file := Q.Slot(Q.Inbound, id), Q.Decoded(Q.Stamped(msg, e.now));
      assert Q.Prefix(steps, e.io) == [Q.Write(slot, file)];
      Q.RunSingle(q.disk, [Q.Write(slot, file)]);
      assert after == q.disk[slot := file];
      if d: Q.Dir :| Q.Slot(d, id) in q.disk { assert Q.Slot(d, id) in after; }
    }
  }

  lemma IdIsNotBlank(p: H.Username, key: string)
    ensures !Q.Blank(H.IdOf(p, key))
  {
    var id := H.IdOf(p, key);
    var n := |id| - |key| - 1;
    assert id[n] == H.Nul;
  }

  /** What a request under the key gets and leaves. */
  lemma OwnRequest(c: Setup, w: World, e: Event)
    requires e.Inject? && H.ValidKey(e.req.key) && Inv(w, e.req.principal, e.req.key)
    requires InTime(w, e.req.principal, e.req.key, e)
    ensures
      var (n, r) := Answer(c, w, e);
      Inv(n, e.req.principal, e.req.key) && Good(n, e, r) && ClaimStays(w, n, H.PathOf(e.req.principal, e.req.key))
  {
    var p, key := e.req.principal, e.req.key;
    var path, id := H.PathOf(p, key), H.IdOf(p, key);
    H.IdIsPath(p, key);
    assert H.AfterLookup(View(w), e.req) == View(w);
    if path in w.records && (w.records[path].payload != e.req.payload || w.records[path].committed) {
      RefusedOrReplayed(c, w, e);
    } else {
      NewClaim(c, w, e);
    }
  }

  /** A success names the message of this key, which is in the store with this payload in every copy. */
  ghost predicate Good(n: World, e: Event, r: H.Response)
    requires e.Inject?
  {
    var id := H.IdOf(e.req.principal, e.req.key);
    r.Accepted? || r.Replayed? ==> r.id == id && Q.Present(n.q.disk, id) && Holds(n.q.disk, id, e.req.payload)
  }

  ghost predicate ClaimStays(w: World, n: World, path: string) {
    path in w.records ==> path in n.records && n.records[path].payload == w.records[path].payload
  }

  /** The key is claimed for another payload, or its message is already in: nothing changes. */
  lemma RefusedOrReplayed(c: Setup, w: World, e: Event)
    requires e.Inject? && H.ValidKey(e.req.key) && Inv(w, e.req.principal, e.req.key)
    requires InTime(w, e.req.principal, e.req.key, e)
    requires
      var path := H.PathOf(e.req.principal, e.req.key);
      path in w.records && (w.records[path].payload != e.req.payload || w.records[path].committed)
    ensures
      var (n, r) := Answer(c, w, e);
      n == w && Good(n, e, r) &&
        (e.req.fate.readOk && w.records[H.PathOf(e.req.principal, e.req.key)].payload != e.req.payload ==>
         r == H.Conflict)
  {
    assert H.AfterLookup(View(w), e.req) == View(w);
  }

  lemma NewClaim(c: Setup, w: World, e: Event)
    requires e.Inject? && H.ValidKey(e.req.key) && Inv(w, e.req.principal, e.req.key)
    requires InTime(w, e.req.principal, e.req.key, e)
    requires
      var path := H.PathOf(e.req.principal, e.req.key);
      path in w.records ==> w.records[path].payload == e.req.payload && !w.records[path].committed
    ensures
      var (n, r) := Answer(c, w, e);
      Inv(n, e.req.principal, e.req.key) && Good(n, e, r) && ClaimStays(w, n, H.PathOf(e.req.principal, e.req.key))
  {
    var p, key := e.req.principal, e.req.key;
    var path, id := H.PathOf(p, key), H.IdOf(p, key);
    assert H.AfterLookup(View(w), e.req) == View(w);
    if path !in w.records { NothingHeld(w.q.disk, id, e.req.payload); }
    var s2 := H.AfterPrepare(View(w), e.req, c.ttl);
    assert Inv(World(s2.records, w.q), p, key);
    if e.req.fate.prepare.Written? { OwnEnqueue(c, w.q, e); }
  }

  lemma NothingHeld(disk: Q.Disk, id: Q.Id, payload: H.Payload)
    requires !Q.Present(disk, id)
    ensures Holds(disk, id, payload)
  {
    forall s | s in disk ensures s.id != id { assert Q.Slot(s.dir, s.id) in disk; }
  }

  lemma StepKeeps(c: Setup, w: World, e: Event, p: H.Username, key: string)
    requires H.ValidKey(key) && Inv(w, p, key) && Allowed(w, p, key, e)
    ensures Inv(Next(c, w, e), p, key) && ClaimStays(w, Next(c, w, e), H.PathOf(p, key))
  {
    var path, id := H.PathOf(p, key), H.IdOf(p, key);
    if e.Inject? {
      if Own(e.req, p, key) {
        OwnRequest(c, w, e);
      } else {
        OtherRequest(c, w, e, p, key);
        if H.ValidKey(e.req.key) {
          OtherKeys(e.req, p, key);
          OtherRecord(c, w, e, path);
        }
      }
    } else if path in w.records {
      StoreKeeps(c.limits, w.q, e.event, id, w.records[path].payload);
    } else {
      NothingHeld(w.q.disk, id, "");
      StoreKeeps(c.limits, w.q, e.event, id, "");
    }
  }

  /** An acknowledged message is never lost. */
  lemma StepKeepsPresent(c: Setup, w: World, e: Event, p: H.Username, key: string)
    requires H.ValidKey(key) && Inv(w, p, key) && Allowed(w, p, key, e) && Q.Present(w.q.disk, H.IdOf(p, key))
    ensures Q.Present(Next(c, w, e).q.disk, H.IdOf(p, key))
  {
    var path, id := H.PathOf(p, key), H.IdOf(p, key);
    var payload := w.records[path].payload;
    if e.Store? {
      StoreKeeps(c.limits, w.q, e.event, id, payload);
    } else if Own(e.req, p, key) {
      OwnRequest(c, w, e);
      if payload == e.req.payload { OwnEnqueue(c, w.q, e); }
    } else if H.ValidKey(e.req.key) {
      OtherKeys(e.req, p, key);
      OtherFiles(c, w, e, id);
      SameFilesKeep(w.q.disk, Answer(c, w, e).0.q.disk, id, payload);
    }
  }

  // ----- Whole runs --------------------------------------------------------------------------

  ghost predicate AllAllowed(c: Setup, w: World, p: H.Username, key: string, es: seq<Event>)
    decreases |es|
  {
    es == [] || (Allowed(w, p, key, es[0]) && AllAllowed(c, Next(c, w, es[0]), p, key, es[1..]))
  }

  lemma {:induction false} RunKeeps(c: Setup, w: World, p: H.Username, key: string, es: seq<Event>)
    requires H.ValidKey(key) && Inv(w, p, key) && AllAllowed(c, w, p, key, es)
    ensures
      var n := RunAll(c, w, es);
      Inv(n, p, key) && ClaimStays(w, n, H.PathOf(p, key)) &&
        (Q.Present(w.q.disk, H.IdOf(p, key)) ==> Q.Present(n.q.disk, H.IdOf(p, key)))
    decreases |es|
  {
    if es != [] {
      StepKeeps(c, w, es[0], p, key);
      if Q.Present(w.q.disk, H.IdOf(p, key)) { StepKeepsPresent(c, w, es[0], p, key); }
      RunKeeps(c, Next(c, w, es[0]), p, key, es[1..]);
    }
  }

  /** No claims, and no files under the ids that HTTP requests use. */
  ghost predicate Starts(w: World, p: H.Username, key: string) {
    H.PathOf(p, key) !in w.records && !Q.Present(w.q.disk, H.IdOf(p, key))
  }

  /**
   * A request that is answered with success has its message in the store, and
   * the store holds it ever after, every copy with the payload of that request:
   * whatever failed before, whatever operations of the store ran in between and
   * wherever they stopped.
   */
  lemma SuccessIsDurable(c: Setup, w: World, before: seq<Event>, e: Event, later: seq<Event>)
    requires
      e.Inject? && H.ValidKey(e.req.key) && Starts(w, e.req.principal, e.req.key) &&
      AllAllowed(c, w, e.req.principal, e.req.key, before + [e] + later)
    ensures
      var id := H.IdOf(e.req.principal, e.req.key);
      var (n, r) := Answer(c, RunAll(c, w, before), e);
      var end := RunAll(c, n, later);
      r.Accepted? || r.Replayed? ==>
        r.id == id && Q.Present(n.q.disk, id) && Q.Present(end.q.disk, id) && Holds(end.q.disk, id, e.req.payload)
  {
    var p, key := e.req.principal, e.req.key;
    assert before + [e] + later == before + ([e] + later);
    Divide(c, w, p, key, before, [e] + later);
    var s := RunAll(c, w, before);
    RunKeeps(c, w, p, key, before);
    assert ([e] + later)[0] == e && ([e] + later)[1..] == later;
    OwnRequest(c, s, e);
    var (n, r) := Answer(c, s, e);
    RunKeeps(c, n, p, key, later);
    if r.Accepted? || r.Replayed? { PayloadIsClaimed(n, e, r); }
  }

  lemma PayloadIsClaimed(n: World, e: Event, r: H.Response)
    requires e.Inject? && Inv(n, e.req.principal, e.req.key) && Good(n, e, r) && (r.Accepted? || r.Replayed?)
    ensures
      var path := H.PathOf(e.req.principal, e.req.key);
      path in n.records && n.records[path].payload == e.req.payload
  {
    var path, id := H.PathOf(e.req.principal, e.req.key), H.IdOf(e.req.principal, e.req.key);
    var d: Q.Dir :| Q.Slot(d, id) in n.q.disk;
    assert IsCopy(n.q.disk[Q.Slot(d, id)], e.req.payload) && IsCopy(n.q.disk[Q.Slot(d, id)], n.records[path].payload);
  }

  lemma {:induction false} Divide(c: Setup, w: World, p: H.Username, key: string, a: seq<Event>, b: seq<Event>)
    requires AllAllowed(c, w, p, key, a + b)
    ensures AllAllowed(c, w, p, key, a) && AllAllowed(c, RunAll(c, w, a), p, key, b)
    decreases |a|
  {
    if a == [] {
      assert a + b == b;
    } else {
      assert (a + b)[0] == a[0] && (a + b)[1..] == a[1..] + b;
      Divide(c, Next(c, w, a[0]), p, key, a[1..], b);
    }
  }

  // ----- One file ------------------------------------------------------------------------------

  /** The event's file-system steps were all performed. */
  ghost predicate Completes(c: Setup, w: World, e: Event) {
    var ev := if e.Inject? then Enqueue(e) else e.event;
    ev.op.OpSweep? || |Q.PlanOf(c.limits, w.q, ev.op).0.steps| <= ev.io
  }

  ghost predicate AllComplete(c: Setup, w: World, es: seq<Event>)
    decreases |es|
  {
    es == [] || (Completes(c, w, es[0]) && AllComplete(c, Next(c, w, es[0]), es[1..]))
  }

  lemma {:induction false} OneFilePerMessage(c: Setup, w: World, es: seq<Event>)
    requires Q.OneHome(w.q.disk) && AllComplete(c, w, es)
    ensures Q.OneHome(RunAll(c, w, es).q.disk)
    decreases |es|
  {
    if es != [] {
      var ev := if es[0].Inject? then Enqueue(es[0]) else es[0].event;
      Q.ExecKeepsOneHome(c.limits, w.q, ev.op);
      assert QC.Happen(c.limits, w.q, ev).disk == Q.Exec(c.limits, w.q, ev.op).disk;
      OneFilePerMessage(c, Next(c, w, es[0]), es[1..]);
    }
  }

  /** Without interruptions a key's successful answer stands for exactly one file, now and in every later state. */
  lemma ExactlyOneFile(c: Setup, w: World, before: seq<Event>, e: Event, later: seq<Event>)
    requires
      e.Inject? && H.ValidKey(e.req.key) && Starts(w, e.req.principal, e.req.key) && Q.OneHome(w.q.disk) &&
      AllAllowed(c, w, e.req.principal, e.req.key, before + [e] + later) && AllComplete(c, w, before + [e] + later)
    ensures
      var id := H.IdOf(e.req.principal, e.req.key);
      var (n, r) := Answer(c, RunAll(c, w, before), e);
      var end := RunAll(c, n, later);
      r.Accepted? || r.Replayed? ==>
        exists d: Q.Dir :: Q.Slot(d, id) in end.q.disk && forall o: Q.Dir :: Q.Slot(o, id) in end.q.disk ==> o == d
  {
    SuccessIsDurable(c, w, before, e, later);
    OneFilePerMessage(c, w, before + [e] + later);
    RunInParts(c, w, before, e, later);
    var id := H.IdOf(e.req.principal, e.req.key);
    var (n, r) := Answer(c, RunAll(c, w, before), e);
    var end := RunAll(c, n, later);
    if r.Accepted? || r.Replayed? {
      var d: Q.Dir :| Q.Slot(d, id) in end.q.disk;
      forall o: Q.Dir | Q.Slot(o, id) in end.q.disk ensures o == d {}
    }
  }

  lemma {:induction false} RunInParts(c: Setup, w: World, before: seq<Event>, e: Event, later: seq<Event>)
    ensures RunAll(c, w, before + [e] + later) == RunAll(c, Next(c, RunAll(c, w, before), e), later)
    decreases |before|
  {
    var es := before + [e] + later;
    if before == [] {
      assert es[0] == e && es[1..] == later;
    } else {
      assert es[0] == before[0] && es[1..] == before[1..] + [e] + later;
      RunInParts(c, Next(c, w, before[0]), before[1..], e, later);
    }
  }

  /** A full queue refuses the request without touching a file; the claim stays open, so the client may try again. */
  lemma CapacityRefusal(c: Setup, w: World, e: Event)
    requires e.Inject? && H.ValidKey(e.req.key)
    requires H.PathOf(e.req.principal, e.req.key) !in w.records && e.req.fate.readOk && e.req.fate.prepare.Written?
    requires Q.CapacityRejects(c.limits, w.q, Enqueue(e).op)
    ensures
      var (n, r) := Answer(c, w, e);
      && r == H.Unavailable && n.q.disk == w.q.disk && n.q.paused
      && n.records == w.records[H.PathOf(e.req.principal, e.req.key) := H.Claim(e.req, c.ttl)]
      && !H.Claim(e.req, c.ttl).committed
  {
    assert H.AfterLookup(View(w), e.req) == View(w);
    assert Q.Prefix([], e.io) == [];
  }
}
