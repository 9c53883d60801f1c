/**
 * Capacity when operations may stop half way. A crash or an I/O error ends the
 * file-system steps of an operation after any prefix, and a restart forgets
 * that admission was paused. A move stopped between its write and its removes
 * leaves one message in two directories, so the files may outnumber the limit;
 * the messages do not.
 */
module QueueCrashes {
  import opened Common
  import opened QueueStore

  /** One operation: the steps the disk performs before it fails, and whether the process restarts afterwards. */
  datatype Event = Event(op: Op, io: nat, restart: bool)

  ghost function Happen(l: Limits, s: QState, e: Event): QState {
    if e.op.OpSweep? then Exec(l, s, e.op).(paused := s.paused && !e.restart)
    else
      var (plan, paused) := PlanOf(l, s, e.op);
      QState(Run(s.disk, Prefix(plan.steps, e.io)), paused && !e.restart)
  }

  ghost function HappenAll(l: Limits, s: QState, events: seq<Event>): QState
    decreases |events|
  {
    if events == [] then s else HappenAll(l, Happen(l, s, events[0]), events[1..])
  }

  // ----- Every message counted once ------------------------------------------

  /** Size of the file in a slot; a missing file is lighter than an empty one. */
  function Heft(disk: Disk, s: Slot): int { if s in disk then SizeOf(disk[s]) else -1 }

  /** The largest pending copy of a message, the earliest directory among equals. */
  function Primary(disk: Disk, id: Id): Slot {
    var i, r, g := Slot(Inbound, id), Slot(Retry, id), Slot(Legacy, id);
    if Heft(disk, i) >= Heft(disk, r) && Heft(disk, i) >= Heft(disk, g) then i
    else if Heft(disk, r) >= Heft(disk, g) then r else g
  }

  function PendingIds(disk: Disk): set<Id> { set s | s in PendingSlots(disk) :: s.id }

  function Primaries(disk: Disk): set<Slot> { set s | s in PendingSlots(disk) && s == Primary(disk, s.id) }

  /** The further copies a crash left behind. */
  function Extras(disk: Disk): set<Slot> { PendingSlots(disk) - Primaries(disk) }

  /** Pending bytes with the largest copy of every message counted and no other. */
  ghost function BytesOnce(disk: Disk): nat { SumSizes(disk, Primaries(disk)) }

  lemma PrimaryIsHeaviest(disk: Disk, s: Slot)
    requires s in PendingSlots(disk)
    ensures Primary(disk, s.id) in Primaries(disk) && SizeOf(disk[s]) <= SizeOf(disk[Primary(disk, s.id)])
  {
    assert s == Slot(s.dir, s.id);
    assert Heft(disk, Primary(disk, s.id)) >= Heft(disk, s) >= 0;
  }

  ghost predicate OnePerId(slots: set<Slot>) { forall s, t :: s in slots && t in slots && s.id == t.id ==> s == t }

  /** b holds a file of the same message that is at least as large as a's. */
  ghost predicate Covers(before: Disk, b: set<Slot>, after: Disk, s: Slot)
    requires b <= before.Keys && s in after
  {
    exists t :: t in b && t.id == s.id && SizeOf(after[s]) <= SizeOf(before[t])
  }

  lemma {:induction false} Dominated(after: Disk, a: set<Slot>, before: Disk, b: set<Slot>)
    requires a <= after.Keys && b <= before.Keys && OnePerId(a)
    requires forall s :: s in a ==> Covers(before, b, after, s)
    ensures |a| <= |b| && SumSizes(after, a) <= SumSizes(before, b)
    decreases a
  {
    if a != {} {
      var s :| s in a;
      var t :| t in b && t.id == s.id && SizeOf(after[s]) <= SizeOf(before[t]);
      SumSplit(after, a, s);
      SumSplit(before, b, t);
      forall x | x in a - {s} ensures Covers(before, b - {t}, after, x) {
        var y :| y in b && y.id == x.id && SizeOf(after[x]) <= SizeOf(before[y]);
        assert y != t;
      }
      Dominated(after, a - {s}, before, b - {t});
    }
  }

  lemma {:induction false} SumUnion(disk: Disk, a: set<Slot>, b: set<Slot>)
    requires a <= disk.Keys && b <= disk.Keys && a !! b
    ensures SumSizes(disk, a + b) == SumSizes(disk, a) + SumSizes(disk, b)
    decreases a
  {
    if a == {} {
      assert a + b == b;
    } else {
      var s :| s in a;
      SumSplit(disk, a, s);
      SumSplit(disk, a + b, s);
      assert a + b - {s} == (a - {s}) + b;
      SumUnion(disk, a - {s}, b);
    }
  }

  /** The files are the messages, counted once, and the copies. */
  lemma UsageSplits(disk: Disk)
    ensures PendingCount(disk) == |PendingIds(disk)| + |Extras(disk)|
    ensures PendingBytes(disk) == BytesOnce(disk) + SumSizes(disk, Extras(disk))
  {
    assert PendingSlots(disk) == Primaries(disk) + Extras(disk);
    SumUnion(disk, Primaries(disk), Extras(disk));
    assert PendingIds(disk) == Ids(Primaries(disk)) by {
      forall s | s in PendingSlots(disk) ensures s.id in Ids(Primaries(disk)) { PrimaryIsHeaviest(disk, s); }
    }
    IdsOfDistinct(Primaries(disk));
  }

  function Ids(slots: set<Slot>): set<Id> { set s | s in slots :: s.id }

  lemma {:induction false} IdsOfDistinct(slots: set<Slot>)
    requires OnePerId(slots)
    ensures |Ids(slots)| == |slots|
  {
    if slots != {} {
      var s :| s in slots;
      IdsOfDistinct(slots - {s});
      assert Ids(slots) == Ids(slots - {s}) + {s.id};
    }
  }

  lemma {:induction false} IdsAtMost(slots: set<Slot>)
    ensures |Ids(slots)| <= |slots|
  {
    if slots != {} {
      var s :| s in slots;
      IdsAtMost(slots - {s});
      assert Ids(slots) == Ids(slots - {s}) + {s.id};
    }
  }

  // ----- The limits hold for messages -------------------------------------------

  ghost predicate MessagesWithin(l: Limits, disk: Disk) {
    && (l.maxMessages > 0 ==> |PendingIds(disk)| <= l.maxMessages)
    && (l.maxBytes > 0 ==> BytesOnce(disk) <= l.maxBytes)
  }

  /** Every pending file is no larger than some pending file of the same message before. */
  ghost predicate Shrinks(before: Disk, after: Disk) {
    forall s :: s in PendingSlots(after) ==> Covers(before, PendingSlots(before), after, s)
  }

  lemma CoveredByPrimary(before: Disk, after: Disk, s: Slot)
    requires s in after && Covers(before, PendingSlots(before), after, s)
    ensures Covers(before, Primaries(before), after, s)
  {
    var t :| t in PendingSlots(before) && t.id == s.id && SizeOf(after[s]) <= SizeOf(before[t]);
    PrimaryIsHeaviest(before, t);
    assert Primary(before, t.id).id == s.id;
  }

  lemma ShrinkingStaysWithin(l: Limits, before: Disk, after: Disk)
    requires MessagesWithin(l, before) && Shrinks(before, after)
    ensures MessagesWithin(l, after)
  {
    forall s | s in Primaries(after) ensures Covers(before, Primaries(before), after, s) {
      CoveredByPrimary(before, after, s);
    }
    Dominated(after, Primaries(after), before, Primaries(before));
    CountOnce(before);
    CountOnce(after);
  }

  lemma CountOnce(disk: Disk)
    ensures |PendingIds(disk)| == |Primaries(disk)|
  {
    UsageSplits(disk);
    assert PendingSlots(disk) == Primaries(disk) + Extras(disk);
  }

  /** One message may be new or larger by `size`: no more than the files counted before, and this one. */
  lemma GrowingByOne(before: Disk, after: Disk, slot: Slot, size: nat)
    requires slot in PendingSlots(after) && SizeOf(after[slot]) <= size
    requires forall s :: s in PendingSlots(after) && s != slot ==> Covers(before, PendingSlots(before), after, s)
    ensures |PendingIds(after)| <= PendingCount(before) + 1 && BytesOnce(after) <= PendingBytes(before) + size
  {
    var a := Primaries(after) - {slot};
    Dominated(after, a, before, PendingSlots(before));
    CountOnce(after);
    if slot in Primaries(after) {
      SumSplit(after, Primaries(after), slot);
    } else {
      assert a == Primaries(after);
    }
  }

  /** Removing files and writing one record no larger than a pending copy. */
  lemma StoppedMoveShrinks(disk: Disk, id: Id, target: Dir, msg: Message, k: nat)
    requires IsPendingState(MessageState(disk, id)) && k <= |Move(id, target, msg)|
    requires target == Sent || target == Dlq ||
      (target == Retry && exists d: Dir :: PendingCopy(disk, id, d) && SizeOf(disk[Slot(d, id)]) >= |msg.data|)
    ensures Shrinks(disk, Run(disk, Move(id, target, msg)[..k]))
  {
    var after := Run(disk, Move(id, target, msg)[..k]);
    MoveStoppedAnywhere(disk, id, target, msg, k);
    forall s | s in PendingSlots(after) ensures Covers(disk, PendingSlots(disk), after, s) {
      assert s == Slot(s.dir, s.id);
      if s in disk && after[s] == disk[s] {
        assert s in PendingSlots(disk);
      } else {
        var d: Dir :| PendingCopy(disk, id, d) && SizeOf(disk[Slot(d, id)]) >= |msg.data|;
        assert Slot(d, id) in PendingSlots(disk);
      }
    }
  }

  lemma MovesStayWithin(l: Limits, s: QState, op: Op, k: nat)
    requires op.OpRetry? || op.OpDefer? || op.OpAck? || op.OpFail?
    requires MessagesWithin(l, s.disk) && KeepsData(s.disk, op)
    requires k <= |PlanOf(l, s, op).0.steps|
    ensures MessagesWithin(l, Run(s.disk, PlanOf(l, s, op).0.steps[..k]))
  {
    var id, steps := IdOf(op), PlanOf(l, s, op).0.steps;
    if steps == [] {
      assert steps[..k] == [];
    } else {
      var target, msg := steps[0].slot.dir, steps[0].file.msg;
      assert steps == Move(id, target, msg);
      StoppedMoveShrinks(s.disk, id, target, msg, k);
      ShrinkingStaysWithin(l, s.disk, Run(s.disk, steps[..k]));
    }
  }

  /** A requeue, stopped before or after it removed the source. */
  lemma StoppedRequeue(disk: Disk, dir: Dir, id: Id, msg: Message, k: nat)
    requires 0 < k <= |RequeueSteps(dir, id, msg)|
    ensures
      var after := Run(disk, RequeueSteps(dir, id, msg)[..k]);
      && Slot(Inbound, id) in after && after[Slot(Inbound, id)] == Decoded(msg)
      && forall s :: s in after && s != Slot(Inbound, id) ==> s in disk && after[s] == disk[s]
  {
    var steps := RequeueSteps(dir, id, msg);
    if k == 1 {
      RunSingle(disk, steps[..1]);
    } else {
      assert steps[..k] == steps;
      RequeueEffect(disk, dir, id, msg);
    }
  }

  lemma RequeueCovers(disk: Disk, dir: Dir, id: Id, msg: Message, k: nat, x: Slot)
    requires 0 < k <= |RequeueSteps(dir, id, msg)| && Slot(dir, id) in disk && SizeOf(disk[Slot(dir, id)]) == |msg.data|
    requires x in PendingSlots(Run(disk, RequeueSteps(dir, id, msg)[..k]))
    requires (x != Slot(Inbound, id) || PendingDir(dir))
    ensures Covers(disk, PendingSlots(disk), Run(disk, RequeueSteps(dir, id, msg)[..k]), x)
  {
    StoppedRequeue(disk, dir, id, msg, k);
    assert (if x == Slot(Inbound, id) then Slot(dir, id) else x) in PendingSlots(disk);
  }

  lemma RequeuesStayWithin(l: Limits, s: QState, op: Op, k: nat)
    requires op.OpRequeue? && MessagesWithin(l, s.disk) && k <= |PlanOf(l, s, op).0.steps|
    ensures MessagesWithin(l, Run(s.disk, PlanOf(l, s, op).0.steps[..k]))
  {
    var steps := PlanOf(l, s, op).0.steps;
    if k == 0 {
      assert steps[..k] == [];
    } else {
      var id, dir, msg := op.id, DirFor(op.name).value, steps[0].file.msg;
      assert steps == RequeueSteps(dir, id, msg) && Slot(dir, id) in s.disk &&
        SizeOf(s.disk[Slot(dir, id)]) == |msg.data|;
      var after, target := Run(s.disk, steps[..k]), Slot(Inbound, id);
      forall x | x in PendingSlots(after) && (x != target || PendingDir(dir))
        ensures Covers(s.disk, PendingSlots(s.disk), after, x) {
        RequeueCovers(s.disk, dir, id, msg, k, x);
      }
      if PendingDir(dir) {
        ShrinkingStaysWithin(l, s.disk, after);
      } else {
        StoppedRequeue(s.disk, dir, id, msg, k);
        GrowingByOne(s.disk, after, target, |msg.data|);
      }
    }
  }

  lemma EnqueuesStayWithin(l: Limits, s: QState, op: Op)
    requires op.OpEnqueue? && MessagesWithin(l, s.disk) && PlanOf(l, s, op).0.steps != []
    ensures MessagesWithin(l, Run(s.disk, PlanOf(l, s, op).0.steps))
  {
    var steps := PlanOf(l, s, op).0.steps;
    var slot := Slot(Inbound, op.msg.id);
    RunSingle(s.disk, steps);
    var after := Run(s.disk, steps);
    assert after == s.disk[slot := Decoded(Stamped(op.msg, op.now))];
    forall x | x in PendingSlots(after) && x != slot ensures Covers(s.disk, PendingSlots(s.disk), after, x) {
      assert x in PendingSlots(s.disk);
    }
    GrowingByOne(s.disk, after, slot, |op.msg.data|);
  }

  lemma RemovalsStayWithin(l: Limits, before: Disk, after: Disk)
    requires MessagesWithin(l, before) && forall s :: s in after ==> s in before && after[s] == before[s]
    ensures MessagesWithin(l, after)
  {
    forall s | s in PendingSlots(after) ensures Covers(before, PendingSlots(before), after, s) {
      assert s in PendingSlots(before);
    }
    ShrinkingStaysWithin(l, before, after);
  }

  lemma PrefixIsASlice(steps: seq<Step>, io: nat)
    ensures Prefix(steps, io) == steps[..Min(io, |steps|)]
  {
  }

  /** Wherever an operation stops, no more messages and bytes are pending than the limits allow. */
  lemma EventStaysWithin(l: Limits, s: QState, e: Event)
    requires MessagesWithin(l, s.disk) && KeepsData(s.disk, e.op)
    ensures MessagesWithin(l, Happen(l, s, e).disk)
  {
    var op := e.op;
    if op.OpSweep? {
      RemovalsStayWithin(l, s.disk, Happen(l, s, e).disk);
    } else {
      var steps := PlanOf(l, s, op).0.steps;
      var k := Min(e.io, |steps|);
      PrefixIsASlice(steps, e.io);
      if k == 0 {
        assert steps[..k] == [];
      } else if op.OpEnqueue? {
        assert steps[..k] == steps;
        EnqueuesStayWithin(l, s, op);
      } else if op.OpRequeue? {
        RequeuesStayWithin(l, s, op, k);
      } else if op.OpDelete? {
        RunSingle(s.disk, steps[..k]);
        RemovalsStayWithin(l, s.disk, Happen(l, s, e).disk);
      } else {
        MovesStayWithin(l, s, op, k);
      }
    }
  }

  ghost predicate EventsKeepData(l: Limits, s: QState, events: seq<Event>)
    decreases |events|
  {
    events == [] || (KeepsData(s.disk, events[0].op) && EventsKeepData(l, Happen(l, s, events[0]), events[1..]))
  }

  /** In every state a run reaches, wherever its operations stopped and whenever the process restarted. */
  lemma {:induction false} MessagesStayWithinLimits(l: Limits, s: QState, events: seq<Event>)
    requires MessagesWithin(l, s.disk) && EventsKeepData(l, s, events)
    ensures MessagesWithin(l, HappenAll(l, s, events).disk)
    decreases |events|
  {
    if events != [] {
      EventStaysWithin(l, s, events[0]);
      MessagesStayWithinLimits(l, Happen(l, s, events[0]), events[1..]);
    }
  }

  /** The files are within the limits exactly when the copies fit into what the messages leave free. */
  lemma FilesWithinIffCopiesFit(l: Limits, disk: Disk)
    ensures WithinLimits(l, disk) <==>
      && (l.maxMessages > 0 ==> |Extras(disk)| <= l.maxMessages - |PendingIds(disk)|)
      && (l.maxBytes > 0 ==> SumSizes(disk, Extras(disk)) <= l.maxBytes - BytesOnce(disk))
  {
    UsageSplits(disk);
  }

  // ----- How many copies crashes can leave ---------------------------------------

  /** Files beyond the first of every message, over all directories. */
  ghost function Surplus(disk: Disk): int { |disk.Keys| - |Ids(disk.Keys)| }

  /** The operation wrote its record and stopped before its last remove. */
  ghost predicate Interrupted(l: Limits, s: QState, e: Event) {
    !e.op.OpSweep? && 0 < e.io < |PlanOf(l, s, e.op).0.steps|
  }

  ghost function Interruptions(l: Limits, s: QState, events: seq<Event>): nat
    decreases |events|
  {
    if events == [] then 0
    else (if Interrupted(l, s, events[0]) then 1 else 0) + Interruptions(l, Happen(l, s, events[0]), events[1..])
  }

  /** Fewer slots have no more surplus. */
  lemma FewerSlots(a: set<Slot>, b: set<Slot>)
    requires a <= b
    ensures |a| - |Ids(a)| <= |b| - |Ids(b)|
  {
    assert b == a + (b - a);
    IdsAtMost(b - a);
    assert Ids(b) == Ids(a) + Ids(b - a);
    assert |Ids(a) + Ids(b - a)| <= |Ids(a)| + |Ids(b - a)|;
  }

  lemma WriteAddsOne(disk: Disk, slot: Slot, file: File)
    ensures
      var before, after := Surplus(disk), Surplus(disk[slot := file]);
      if slot in disk || !Present(disk, slot.id) then after == before else after == before + 1
  {
    var next := disk[slot := file];
    assert next.Keys == disk.Keys + {slot};
    assert Ids(next.Keys) == Ids(disk.Keys) + {slot.id};
    if slot.id in Ids(disk.Keys) {
      var s :| s in disk.Keys && s.id == slot.id;
      assert Slot(s.dir, slot.id) in disk;
    }
  }

  lemma RemoveAddsNone(disk: Disk, slot: Slot)
    ensures Surplus(disk - {slot}) <= Surplus(disk)
  {
    assert (disk - {slot}).Keys == disk.Keys - {slot};
    FewerSlots(disk.Keys - {slot}, disk.Keys);
  }

  /** Removing a file of a message that has another. */
  lemma RemoveTakesOne(disk: Disk, slot: Slot, d: Dir)
    requires slot in disk && Slot(d, slot.id) in disk && d != slot.dir
    ensures Surplus(disk - {slot}) == Surplus(disk) - 1
  {
    var keys, other := disk.Keys - {slot}, Slot(d, slot.id);
    assert (disk - {slot}).Keys == keys && |keys| == |disk.Keys| - 1;
    assert other in keys;
    forall s | s in disk.Keys ensures s.id in Ids(keys) {
      if s == slot { assert other.id == s.id; } else { assert s in keys; }
    }
    assert Ids(keys) == Ids(disk.Keys);
  }

  lemma {:induction false} RemovesAddNone(disk: Disk, steps: seq<Step>)
    requires forall i :: 0 <= i < |steps| ==> steps[i].Remove?
    ensures Surplus(Run(disk, steps)) <= Surplus(disk)
    decreases |steps|
  {
    if steps != [] {
      RemoveAddsNone(disk, steps[0].slot);
      RemovesAddNone(Apply(disk, steps[0]), steps[1..]);
    }
  }

  /** Removing a second copy of a message that keeps its target. */
  lemma {:induction false} RemovesTakeOne(disk: Disk, steps: seq<Step>, id: Id, target: Dir, d: Dir)
    requires forall i :: 0 <= i < |steps| ==> Removes(steps[i], id, target)
    requires Remove(Slot(d, id)) in steps && d != target && Slot(d, id) in disk && Slot(target, id) in disk
    ensures Surplus(Run(disk, steps)) < Surplus(disk)
    decreases |steps|
  {
    var next, rest := Apply(disk, steps[0]), steps[1..];
    RemoveAddsNone(disk, steps[0].slot);
    if steps[0] == Remove(Slot(d, id)) {
      RemoveTakesOne(disk, Slot(d, id), target);
      RemovesAddNone(next, rest);
    } else {
      RemovesTakeOne(next, rest, id, target, d);
    }
  }

  lemma CleanupNames(id: Id, target: Dir, d: Dir)
    requires PendingDir(d) && d != target
    ensures Remove(Slot(d, id)) in Cleanup(id, target)
  {
    var a := if target == Inbound then [] else [Remove(Slot(Inbound, id))];
    var b := if target == Retry then [] else [Remove(Slot(Retry, id))];
    var c := if target == Legacy then [] else [Remove(Slot(Legacy, id))];
    assert Cleanup(id, target) == a + b + c;
    assert Remove(Slot(d, id)) in (if d == Inbound then a else if d == Retry then b else c);
  }

  /** A move adds at most one file, and none when it runs to its end. */
  lemma MoveSurplus(disk: Disk, id: Id, target: Dir, msg: Message, k: nat)
    requires IsPendingState(MessageState(disk, id)) && 0 < k <= |Move(id, target, msg)|
    requires target == Sent || target == Dlq || target == Retry
    ensures Surplus(Run(disk, Move(id, target, msg)[..k])) <= Surplus(disk) + if k < |Move(id, target, msg)| then 1
      else 0
  {
    var steps := Move(id, target, msg);
    var first, tail := disk[Slot(target, id) := Decoded(msg)], steps[1..k];
    MoveSteps(id, target, msg);
    WriteAddsOne(disk, Slot(target, id), Decoded(msg));
    RemovesAddNone(first, tail);
    RunFrom(disk, steps, k);
    if k == |steps| && Slot(target, id) !in disk { CleanupTakesOne(disk, id, target, msg); }
  }

  lemma RunFrom(disk: Disk, steps: seq<Step>, k: nat)
    requires 0 < k <= |steps|
    ensures Run(disk, steps[..k]) == Run(Apply(disk, steps[0]), steps[1..k])
  {
    assert steps[..k][0] == steps[0] && steps[..k][1..] == steps[1..k];
  }

  /** The removes after the write drop the copy the message had before. */
  lemma CleanupTakesOne(disk: Disk, id: Id, target: Dir, msg: Message)
    requires IsPendingState(MessageState(disk, id)) && Slot(target, id) !in disk
    ensures
      var first, steps := disk[Slot(target, id) := Decoded(msg)], Move(id, target, msg);
      Surplus(Run(first, steps[1..|steps|])) < Surplus(first)
  {
    var first, steps := disk[Slot(target, id) := Decoded(msg)], Move(id, target, msg);
    var home := if Slot(Inbound, id) in disk then Inbound else if Slot(Retry, id) in disk then Retry else Legacy;
    var tail := steps[1..|steps|];
    assert tail == Cleanup(id, target);
    MoveSteps(id, target, msg);
    CleanupNames(id, target, home);
    RemovesTakeOne(first, tail, id, target, home);
  }

  lemma RequeueSurplus(disk: Disk, dir: Dir, id: Id, msg: Message, k: nat)
    requires Slot(dir, id) in disk && 0 < k <= |RequeueSteps(dir, id, msg)|
    ensures Surplus(Run(disk, RequeueSteps(dir, id, msg)[..k])) <=
      Surplus(disk) + if k < |RequeueSteps(dir, id, msg)| then 1 else 0
  {
    var steps := RequeueSteps(dir, id, msg);
    var first := Apply(disk, steps[0]);
    WriteAddsOne(disk, Slot(Inbound, id), Decoded(msg));
    if k == 1 {
      RunSingle(disk, steps[..1]);
    } else {
      assert steps[..k] == steps;
      RequeueEffect(disk, dir, id, msg);
      assert Run(disk, steps) == first - {Slot(dir, id)};
      assert Slot(Inbound, id) in first;
      RemoveTakesOne(first, Slot(dir, id), Inbound);
    }
  }

  lemma SweepSurplus(disk: Disk, now: int, stuck: set<Slot>)
    ensures Surplus(Swept(disk, now, stuck)) <= Surplus(disk)
  {
    FewerSlots(Swept(disk, now, stuck).Keys, disk.Keys);
  }

  lemma MoveOpSurplus(l: Limits, s: QState, op: Op, k: nat)
    requires op.OpRetry? || op.OpDefer? || op.OpAck? || op.OpFail?
    requires 0 < k <= |PlanOf(l, s, op).0.steps|
    ensures
      var steps := PlanOf(l, s, op).0.steps;
      Surplus(Run(s.disk, steps[..k])) <= Surplus(s.disk) + if k < |steps| then 1 else 0
  {
    var steps := PlanOf(l, s, op).0.steps;
    assert steps == Move(IdOf(op), steps[0].slot.dir, steps[0].file.msg);
    MoveSurplus(s.disk, IdOf(op), steps[0].slot.dir, steps[0].file.msg, k);
  }

  lemma OtherOpSurplus(l: Limits, s: QState, op: Op, k: nat)
    requires op.OpEnqueue? || op.OpDelete? || op.OpRequeue?
    requires 0 < k <= |PlanOf(l, s, op).0.steps|
    ensures
      var steps := PlanOf(l, s, op).0.steps;
      Surplus(Run(s.disk, steps[..k])) <= Surplus(s.disk) + if k < |steps| then 1 else 0
  {
    var steps := PlanOf(l, s, op).0.steps;
    if op.OpRequeue? {
      assert steps == RequeueSteps(DirFor(op.name).value, op.id, steps[0].file.msg);
      RequeueSurplus(s.disk, DirFor(op.name).value, op.id, steps[0].file.msg, k);
    } else {
      RunSingle(s.disk, steps[..k]);
      if op.OpEnqueue? {
        NewIdIsAbsent(s.disk, op.msg.id);
        WriteAddsOne(s.disk, steps[0].slot, steps[0].file);
      } else {
        RemoveAddsNone(s.disk, steps[0].slot);
      }
    }
  }

  /** Only an interrupted operation leaves a further file behind, and it leaves one. */
  lemma EventSurplus(l: Limits, s: QState, e: Event)
    ensures Surplus(Happen(l, s, e).disk) <= Surplus(s.disk) + if Interrupted(l, s, e) then 1 else 0
  {
    var op := e.op;
    if op.OpSweep? {
      SweepSurplus(s.disk, op.now, op.stuck);
    } else {
      var steps := PlanOf(l, s, op).0.steps;
      var k := Min(e.io, |steps|);
      PrefixIsASlice(steps, e.io);
      if k == 0 {
        assert steps[..k] == [];
      } else if op.OpEnqueue? || op.OpDelete? || op.OpRequeue? {
        OtherOpSurplus(l, s, op, k);
      } else {
        MoveOpSurplus(l, s, op, k);
      }
    }
  }

  lemma NewIdIsAbsent(disk: Disk, id: Id)
    requires MessageState(disk, id) == StNone
    ensures !Present(disk, id)
  {
    forall d: Dir ensures Slot(d, id) !in disk {
      match d
      case Inbound => case Retry => case Legacy => case Sent => case Dlq =>
    }
  }

  lemma {:induction false} SurplusOfARun(l: Limits, s: QState, events: seq<Event>)
    ensures Surplus(HappenAll(l, s, events).disk) <= Surplus(s.disk) + Interruptions(l, s, events)
    decreases |events|
  {
    if events != [] {
      EventSurplus(l, s, events[0]);
      SurplusOfARun(l, Happen(l, s, events[0]), events[1..]);
    }
  }

  lemma ExtrasWithinSurplus(disk: Disk)
    ensures |Extras(disk)| <= Surplus(disk)
  {
    assert PendingIds(disk) == Ids(PendingSlots(disk));
    FewerSlots(PendingSlots(disk), disk.Keys);
    UsageSplits(disk);
  }

  /**
   * The pending files exceed the limit by no more than the copies present at
   * the start and one for every interrupted operation since.
   */
  lemma FilesExceedByInterruptionsOnly(l: Limits, s: QState, events: seq<Event>)
    requires MessagesWithin(l, s.disk) && EventsKeepData(l, s, events) && l.maxMessages > 0
    ensures PendingCount(HappenAll(l, s, events).disk) <= l.maxMessages + Surplus(s.disk) + Interruptions(l, s, events)
  {
    var disk := HappenAll(l, s, events).disk;
    MessagesStayWithinLimits(l, s, events);
    SurplusOfARun(l, s, events);
    ExtrasWithinSurplus(disk);
    UsageSplits(disk);
  }

  /** `size` added up k times. */
  function Times(k: nat, size: nat): nat { if k == 0 then 0 else size + Times(k - 1, size) }

  lemma {:induction false} TimesIsProduct(k: nat, size: nat)
    ensures Times(k, size) == k * size
  {
    if k > 0 { TimesIsProduct(k - 1, size); }
  }

  lemma {:induction false} SumAtMost(disk: Disk, slots: set<Slot>, largest: nat)
    requires slots <= disk.Keys && forall s :: s in slots ==> SizeOf(disk[s]) <= largest
    ensures SumSizes(disk, slots) <= Times(|slots|, largest)
    decreases slots
  {
    if slots != {} {
      var s :| s in slots;
      SumSplit(disk, slots, s);
      SumAtMost(disk, slots - {s}, largest);
    }
  }

  lemma ExtraBytes(disk: Disk, copies: nat, largest: nat)
    requires |Extras(disk)| <= copies && forall f :: f in PendingSlots(disk) ==> SizeOf(disk[f]) <= largest
    ensures PendingBytes(disk) <= BytesOnce(disk) + copies * largest
  {
    UsageSplits(disk);
    SumAtMost(disk, Extras(disk), largest);
    TimesIsProduct(|Extras(disk)|, largest);
    MulMono(|Extras(disk)|, copies, largest);
  }

  /** No pending file is larger than all messages together. */
  lemma PendingIsCounted(disk: Disk, s: Slot)
    requires s in PendingSlots(disk)
    ensures SizeOf(disk[s]) <= BytesOnce(disk)
  {
    PrimaryIsHeaviest(disk, s);
    SumSplit(disk, Primaries(disk), Primary(disk, s.id));
  }

  /**
   * The pending bytes exceed the limit by no more than the size of the largest
   * pending file for each of those copies; no pending file exceeds the limit.
   */
  lemma BytesExceedByInterruptionsOnly(l: Limits, s: QState, events: seq<Event>, disk: Disk, copies: int, largest: nat)
    requires MessagesWithin(l, s.disk) && EventsKeepData(l, s, events) && l.maxBytes > 0
    requires disk == HappenAll(l, s, events).disk && copies == Surplus(s.disk) + Interruptions(l, s, events)
    requires forall f :: f in PendingSlots(disk) ==> SizeOf(disk[f]) <= largest
    ensures copies >= 0 && PendingBytes(disk) <= l.maxBytes + copies * largest
    ensures forall f :: f in PendingSlots(disk) ==> SizeOf(disk[f]) <= l.maxBytes
  {
    MessagesStayWithinLimits(l, s, events);
    CopiesOfARun(l, s, events, disk, copies);
    ExtraBytes(disk, copies, largest);
    forall f | f in PendingSlots(disk) ensures SizeOf(disk[f]) <= l.maxBytes { PendingIsCounted(disk, f); }
  }

  lemma CopiesOfARun(l: Limits, s: QState, events: seq<Event>, disk: Disk, copies: int)
    requires disk == HappenAll(l, s, events).disk && copies == Surplus(s.disk) + Interruptions(l, s, events)
    ensures |Extras(disk)| <= copies
  {
    SurplusOfARun(l, s, events);
    ExtrasWithinSurplus(disk);
  }

  /** The bound is met: one message, a limit of one, and a retry stopped after its write. */
  lemma OneInterruptionOneOver(m: Message, delay: int, reason: string, now: int)
    requires m.quarantine.None?
    ensures
      var l := Limits(1, 0, 0, 0);
      var s := QState(map[Slot(Inbound, m.id) := Decoded(m)], false);
      var events := [Event(OpRetry(m, delay, reason, now), 1, true)];
      && WithinLimits(l, s.disk) && EventsKeepData(l, s, events) && Surplus(s.disk) == 0
      && Interruptions(l, s, events) == 1
      && PendingCount(HappenAll(l, s, events).disk) == 2 && !WithinLimits(l, HappenAll(l, s, events).disk)
  {
    var l := Limits(1, 0, 0, 0);
    var i, r := Slot(Inbound, m.id), Slot(Retry, m.id);
    var s := QState(map[i := Decoded(m)], false);
    var e := Event(OpRetry(m, delay, reason, now), 1, true);
    var written := Decoded(Retried(m, delay, reason, now));
    assert PendingSlots(s.disk) == {i} && s.disk.Keys == {i} && Ids({i}) == {m.id};
    assert PendingCopy(s.disk, m.id, Inbound);
    RunSingle(s.disk, Prefix(PlanOf(l, s, e.op).0.steps, 1));
    var n := Happen(l, s, e);
    assert n.disk == s.disk[r := written];
    assert PendingSlots(n.disk) == {i, r};
    assert [e][1..] == [] && HappenAll(l, n, []) == n;
    assert HappenAll(l, s, [e]) == n && Interruptions(l, n, []) == 0;
  }

  // ----- Hysteresis ----------------------------------------------------------------

  /** A restart clears the paused flag; stopping early and copies left behind do not touch it. */
  lemma FlagAfter(l: Limits, s: QState, e: Event)
    ensures Happen(l, s, e).paused == (Exec(l, s, e.op).paused && !e.restart)
  {
  }

  ghost predicate NoRestart(events: seq<Event>) { forall i :: 0 <= i < |events| ==> !events[i].restart }

  /** None of the events lets a record in. */
  ghost predicate AdmitsNothing(l: Limits, s: QState, events: seq<Event>)
    decreases |events|
  {
    events == [] || (!Admits(l, s, events[0].op) && AdmitsNothing(l, Happen(l, s, events[0]), events[1..]))
  }

  lemma {:induction false} PauseLasts(l: Limits, s: QState, events: seq<Event>)
    requires Enabled(l) && s.paused && NoRestart(events) && AdmitsNothing(l, s, events)
    ensures HappenAll(l, s, events).paused
    decreases |events|
  {
    if events != [] {
      PausedUntilDrained(l, s, events[0].op);
      FlagAfter(l, s, events[0]);
      PauseLasts(l, Happen(l, s, events[0]), events[1..]);
    }
  }

  /**
   * After a capacity rejection the first admission sees a drained queue,
   * wherever the operations in between stopped, as long as the process does not
   * restart.
   */
  lemma FirstAdmissionIsDrained(l: Limits, s: QState, reject: Event, quiet: seq<Event>, op: Op)
    requires Enabled(l) && CapacityRejects(l, s, reject.op) && NoRestart([reject] + quiet)
    requires AdmitsNothing(l, Happen(l, s, reject), quiet)
    requires Admits(l, HappenAll(l, Happen(l, s, reject), quiet), op)
    ensures Drained(l, HappenAll(l, Happen(l, s, reject), quiet), op)
  {
    var all := [reject] + quiet;
    assert all[0] == reject && all[1..] == quiet;
    assert NoRestart(quiet) by {
      forall i | 0 <= i < |quiet| ensures !quiet[i].restart { assert all[i + 1] == quiet[i]; }
    }
    PausedUntilDrained(l, s, reject.op);
    FlagAfter(l, s, reject);
    PauseLasts(l, Happen(l, s, reject), quiet);
    PausedUntilDrained(l, HappenAll(l, Happen(l, s, reject), quiet), op);
  }

  /**
   * The condition is exact: an operation that fits the limits while the queue is
   * not drained is let in right after a rejection if and only if the process
   * restarted.
   */
  lemma RestartDecides(l: Limits, s: QState, reject: Event, op: Op)
    requires Enabled(l) && CapacityRejects(l, s, reject.op) && (op.OpEnqueue? || op.OpRequeue?)
    requires Admits(l, QState(s.disk, false), op) && !Drained(l, s, op)
    ensures Admits(l, Happen(l, s, reject), op) <==> reject.restart
  {
    var next := Happen(l, s, reject);
    PausedUntilDrained(l, s, reject.op);
    FlagAfter(l, s, reject);
    RejectionWritesNothing(l, s, reject);
    if reject.restart {
      assert next == QState(s.disk, false);
    } else {
      PausedUntilDrained(l, next, op);
    }
  }

  lemma RejectionWritesNothing(l: Limits, s: QState, e: Event)
    requires CapacityRejects(l, s, e.op)
    ensures Happen(l, s, e).disk == s.disk
  {
    assert PlanOf(l, s, e.op).0.steps == [];
    assert Prefix([], e.io) == [];
  }

  /**
   * Such a case: ten bytes allowed, resumption at one; five are pending, six
   * more are refused, and after a restart one more is let in.
   */
  lemma RestartForgetsThePause(held: Message, large: Message, small: Message, now: int, probe: DiskProbe)
    requires |held.data| == 5 && |large.data| == 6 && |small.data| == 1 && held.quarantine.None?
    requires held.id != large.id && held.id != small.id && !Blank(large.id) && !Blank(small.id)
    ensures
      var l := Limits(0, 10, 0, 10);
      var s := QState(map[Slot(Inbound, held.id) := Decoded(held)], false);
      var reject, op := Event(OpEnqueue(large, now, probe), 1, true), OpEnqueue(small, now, probe);
      CapacityRejects(l, s, reject.op) && Admits(l, Happen(l, s, reject), op) && !Drained(l, Happen(l, s, reject), op)
  {
    var l := Limits(0, 10, 0, 10);
    var slot := Slot(Inbound, held.id);
    var s := QState(map[slot := Decoded(held)], false);
    var reject, op := Event(OpEnqueue(large, now, probe), 1, true), OpEnqueue(small, now, probe);
    assert PendingSlots(s.disk) == {slot};
    SumSplit(s.disk, {slot}, slot);
    assert {slot} - {slot} == {};
    assert PendingBytes(s.disk) == 5 && LowMark(10, 10) == 1;
    RestartDecides(l, s, reject, op);
    RejectionWritesNothing(l, s, reject);
  }
}
