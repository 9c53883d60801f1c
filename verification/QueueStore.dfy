/**
 * The durable local queue: state directories, the ordered file-system steps of
 * every transition, and capacity admission with hysteresis.
 *
 * A directory entry is a slot (directory, message id). Writing a record is
 * temp-file-plus-rename, hence one atomic step; removing one is another. Every
 * transition is a short plan of such steps, and a crash or an I/O error stops
 * the plan after any prefix.
 */
module QueueStore {
  import opened Common

  type Id = string

  datatype Quarantine = Quarantine(reason: string, expiresAt: int)

  datatype Message = Message(
    id: Id,
    rcptTo: seq<string>,
    data: string,
    attempts: int,
    createdAt: int,
    updatedAt: int,
    nextAttempt: int,
    lastError: string,
    quarantine: Option<Quarantine>)

  datatype Dir = Inbound | Retry | Legacy | Sent | Dlq

  /** What reading one directory entry yields. */
  datatype File = Decoded(msg: Message) | Corrupt

  datatype Slot = Slot(dir: Dir, id: Id)

  type Disk = map<Slot, File>

  predicate PendingDir(d: Dir) {
    d == Inbound || d == Retry || d == Legacy
  }

  // ----- File-system steps -------------------------------------------------

  datatype Step = Write(slot: Slot, file: File) | Remove(slot: Slot)

  function Apply(disk: Disk, step: Step): Disk {
    match step
    case Write(slot, file) => disk[slot := file]
    case Remove(slot) => disk - {slot}
  }

  function Run(disk: Disk, steps: seq<Step>): Disk
    decreases |steps|
  {
    if steps == [] then disk else Run(Apply(disk, steps[0]), steps[1..])
  }

  /** The prefix of a plan that a disk performing `io` mutations gets through. */
  function Prefix(steps: seq<Step>, io: nat): seq<Step> {
    if io < |steps| then steps[..io] else steps
  }

  // ----- Message state -----------------------------------------------------

  datatype State =
    | StInbound | StRetry | StPending | StSent | StDlq
    | StQuarantine | StNone | StUnreadable

  predicate IsPendingState(st: State) {
    st == StInbound || st == StRetry || st == StPending
  }

  /** The first directory holding the id decides, pending directories first. */
  function MessageState(disk: Disk, id: Id): State {
    if Slot(Inbound, id) in disk then
      match disk[Slot(Inbound, id)] {
        case Corrupt => StUnreadable
        case Decoded(m) => if m.quarantine.Some? then StQuarantine else StInbound
      }
    else if Slot(Retry, id) in disk then StRetry
    else if Slot(Legacy, id) in disk then StPending
    else if Slot(Sent, id) in disk then StSent
    else if Slot(Dlq, id) in disk then StDlq
    else StNone
  }

  // ----- Plans -------------------------------------------------------------

  datatype Outcome = Ok | NotFound | InvalidTransition | AtCapacity | Failed | BadId

  datatype Plan = Plan(outcome: Outcome, steps: seq<Step>)

  /** removePendingExcept: the removes that follow a write to `except`. */
  function Cleanup(id: Id, except: Dir): seq<Step> {
    (if except == Inbound then [] else [Remove(Slot(Inbound, id))]) +
    (if except == Retry then [] else [Remove(Slot(Retry, id))]) +
    (if except == Legacy then [] else [Remove(Slot(Legacy, id))])
  }

  function Move(id: Id, target: Dir, msg: Message): seq<Step> {
    [Write(Slot(target, id), Decoded(msg))] + Cleanup(id, target)
  }

  function AckPlan(disk: Disk, id: Id, msg: Message, now: int): Plan {
    match MessageState(disk, id)
    case StSent => Plan(Ok, [])
    case StDlq => Plan(InvalidTransition, [])
    case StQuarantine => Plan(InvalidTransition, [])
    case StNone => Plan(NotFound, [])
    case StUnreadable => Plan(Failed, [])
    case _ => Plan(Ok, Move(id, Sent, msg.(updatedAt := now)))
  }

  function Retried(msg: Message, delay: int, reason: string, now: int): Message {
    msg.(attempts := msg.attempts + 1, lastError := reason, updatedAt := now, nextAttempt := now + delay)
  }

  function Deferred(msg: Message, delay: int, now: int): Message {
    msg.(updatedAt := now, nextAttempt := now + delay)
  }

  function DeadLettered(msg: Message, reason: string, now: int): Message {
    msg.(attempts := msg.attempts + 1, lastError := reason, updatedAt := now)
  }

  /** Retry and Defer share the guard; they differ in the record they write. */
  function ReschedulePlan(disk: Disk, id: Id, written: Message): Plan {
    match MessageState(disk, id)
    case StSent => Plan(InvalidTransition, [])
    case StDlq => Plan(InvalidTransition, [])
    case StQuarantine => Plan(InvalidTransition, [])
    case StNone => Plan(NotFound, [])
    case StUnreadable => Plan(Failed, [])
    case _ => Plan(Ok, Move(id, Retry, written))
  }

  function FailPlan(disk: Disk, id: Id, written: Message): Plan {
    match MessageState(disk, id)
    case StDlq => Plan(Ok, [])
    case StSent => Plan(InvalidTransition, [])
    case StQuarantine => Plan(InvalidTransition, [])
    case StNone => Plan(NotFound, [])
    case StUnreadable => Plan(Failed, [])
    case _ => Plan(Ok, Move(id, Dlq, written))
  }

  /** The state names the operator may name when requeueing. */
  datatype StateName = NameInbound | NameQuarantine | NameRetry | NameDlq | NameSent | NameUnknown

  function DirFor(name: StateName): Option<Dir> {
    match name
    case NameInbound => Some(Inbound)
    case NameQuarantine => Some(Inbound)
    case NameRetry => Some(Retry)
    case NameDlq => Some(Dlq)
    case NameSent => Some(Sent)
    case NameUnknown => None
  }

  predicate ValidRequeueId(id: Id) {
    id != "" && '/' !in id && '\\' !in id
  }

  predicate QuarantineExpired(msg: Message, now: int) {
    msg.quarantine.Some? && msg.quarantine.value.expiresAt != 0 && msg.quarantine.value.expiresAt <= now
  }

  /** Everything RequeueFromState decides before capacity: the record to move. */
  function RequeueSource(disk: Disk, name: StateName, id: Id, now: int): (Outcome, Option<Message>) {
    if !ValidRequeueId(id) then (NotFound, None)
    else match DirFor(name)
      case None => (Failed, None)
      case Some(dir) =>
        if Slot(dir, id) !in disk then (NotFound, None)
        else match disk[Slot(dir, id)]
          case Corrupt => (Failed, None)
          case Decoded(m) =>
            if (name == NameQuarantine) != m.quarantine.Some? then (InvalidTransition, None)
            else if QuarantineExpired(m, now) then (InvalidTransition, None)
            else (Ok, Some(m.(quarantine := None, updatedAt := now, nextAttempt := now)))
  }

  function RequeueSteps(dir: Dir, id: Id, msg: Message): seq<Step> {
    [Write(Slot(Inbound, id), Decoded(msg))] + (if dir == Inbound then [] else [Remove(Slot(dir, id))])
  }

  // ----- Usage and admission -----------------------------------------------

  /** Zero disables a limit; a low percentage of zero means 80. */
  datatype Limits = Limits(maxMessages: nat, maxBytes: nat, minFree: nat, lowPercent: nat)

  predicate Enabled(l: Limits) {
    l.maxMessages != 0 || l.maxBytes != 0 || l.minFree != 0
  }

  function LowPercent(l: Limits): nat {
    if l.lowPercent == 0 then 80 else l.lowPercent
  }

  function PendingSlots(disk: Disk): set<Slot> {
    set s | s in disk && PendingDir(s.dir)
  }

  function SizeOf(f: File): nat {
    match f case Decoded(m) => |m.data| case Corrupt => 0
  }

  ghost function SumSizes(disk: Disk, slots: set<Slot>): nat
    requires slots <= disk.Keys
  {
    if slots == {} then 0 else
      var s :| s in slots;
      SizeOf(disk[s]) + SumSizes(disk, slots - {s})
  }

  ghost function PendingCount(disk: Disk): nat { |PendingSlots(disk)| }

  ghost function PendingBytes(disk: Disk): nat { SumSizes(disk, PendingSlots(disk)) }

  /** A pending file that cannot be decoded makes the scan fail. */
  ghost predicate Scannable(disk: Disk) {
    forall s :: s in PendingSlots(disk) ==> disk[s].Decoded?
  }

  /** The watermark test as the code splits it to stay inside int64. */
  function LowMark(max: nat, low: nat): nat {
    max / 100 * low + max % 100 * low / 100
  }

  predicate AtOrBelow(n: nat, max: nat, low: nat) {
    max == 0 || n <= LowMark(max, low)
  }

  /** Free bytes reported for the queue directory and the size of the encoded record. */
  datatype DiskProbe = DiskProbe(free: Option<nat>, encoded: nat)

  predicate DiskRoom(l: Limits, p: DiskProbe) {
    l.minFree == 0 || (p.free.Some? && p.free.value >= l.minFree && p.encoded <= p.free.value - l.minFree)
  }

  datatype Admission = Admitted | Rejected | ProbeFailed

  /** The split formula is the floor of max*low/100, and every intermediate fits below max + 99*99. */
  lemma LowMarkIsFloor(max: nat, low: nat)
    requires low < 100
    ensures LowMark(max, low) == max * low / 100
    ensures max / 100 * low <= max && max % 100 * low <= 9801 && LowMark(max, low) <= max
    ensures max > 0 ==> LowMark(max, low) < max
  {
    var q, r := max / 100, max % 100;
    assert max == 100 * q + r;
    calc {
      max * low;
      (100 * q + r) * low;
      100 * (q * low) + r * low;
    }
    assert max * low / 100 == q * low + r * low / 100;
    assert q * low <= q * 99 by { MulMono(low, 99, q); }
    assert r * low <= 99 * 99 by { MulMono(low, 99, r); MulMono(r, 99, 99); }
    assert r * low <= r * 99 by { MulMono(low, 99, r); }
    assert q * low + r * low / 100 <= q * 99 + r;
  }

  lemma MulMono(a: nat, b: nat, c: nat)
    requires a <= b
    ensures c * a <= c * b && a * c <= b * c
  {}

  lemma {:induction false} SumSplit(disk: Disk, slots: set<Slot>, s: Slot)
    requires slots <= disk.Keys && s in slots
    ensures SumSizes(disk, slots) == SizeOf(disk[s]) + SumSizes(disk, slots - {s})
    decreases slots
  {
    var c :| c in slots && SumSizes(disk, slots) == SizeOf(disk[c]) + SumSizes(disk, slots - {c});
    if c != s {
      SumSplit(disk, slots - {c}, s);
      SumSplit(disk, slots - {s}, c);
      assert slots - {c} - {s} == slots - {s} - {c};
    }
  }

  lemma {:induction false} SumAgree(a: Disk, b: Disk, slots: set<Slot>)
    requires slots <= a.Keys && slots <= b.Keys
    requires forall s :: s in slots ==> SizeOf(a[s]) == SizeOf(b[s])
    ensures SumSizes(a, slots) == SumSizes(b, slots)
    decreases slots
  {
    if slots != {} {
      var c :| c in slots;
      SumSplit(a, slots, c);
      SumSplit(b, slots, c);
      SumAgree(a, b, slots - {c});
    }
  }

  /** What admit decides and whether the store is paused afterwards. */
  ghost function AdmitVerdict(l: Limits, paused: bool, disk: Disk, size: nat, probe: DiskProbe): (Admission, bool) {
    if !Enabled(l) then (Admitted, paused)
    else if !Scannable(disk) || (l.minFree > 0 && probe.free.None?) then (ProbeFailed, paused)
    else
      var count, bytes, low := PendingCount(disk), PendingBytes(disk), LowPercent(l);
      var room := DiskRoom(l, probe);
      var still := paused && !(AtOrBelow(count, l.maxMessages, low) && AtOrBelow(bytes, l.maxBytes, low) && room);
      if still || (l.maxMessages > 0 && count >= l.maxMessages)
         || (l.maxBytes > 0 && size > l.maxBytes - bytes) || !room
      then (Rejected, true)
      else (Admitted, false)
  }

  // ----- Operations on the whole store -------------------------------------

  datatype Op =
    | OpEnqueue(msg: Message, now: int, probe: DiskProbe)
    | OpAck(id: Id, msg: Message, now: int)
    | OpRetry(msg: Message, delay: int, reason: string, now: int)
    | OpDefer(msg: Message, delay: int, now: int)
    | OpFail(msg: Message, reason: string, now: int)
    | OpRequeue(name: StateName, id: Id, now: int, probe: DiskProbe)
    | OpDelete(id: Id, dryRun: bool)
    | OpSweep(now: int, stuck: set<Slot>)

  datatype QState = QState(disk: Disk, paused: bool)

  predicate Blank(id: Id) {
    forall i :: 0 <= i < |id| ==> id[i] in " \t\n\r"
  }

  function Stamped(msg: Message, now: int): Message {
    msg.(createdAt := now, updatedAt := now, nextAttempt := now)
  }

  ghost function EnqueuePlan(l: Limits, s: QState, msg: Message, now: int, probe: DiskProbe): (Plan, bool) {
    if Blank(msg.id) then (Plan(BadId, []), s.paused)
    else match MessageState(s.disk, msg.id)
      case StUnreadable => (Plan(Failed, []), s.paused)
      case StNone =>
        var (verdict, paused) := AdmitVerdict(l, s.paused, s.disk, |msg.data|, probe);
        (match verdict
         case Admitted => Plan(Ok, [Write(Slot(Inbound, msg.id), Decoded(Stamped(msg, now)))])
         case Rejected => Plan(AtCapacity, [])
         case ProbeFailed => Plan(Failed, []),
         paused)
      case _ => (Plan(Ok, []), s.paused)
  }

  ghost function RequeuePlan(l: Limits, s: QState, name: StateName, id: Id, now: int, probe: DiskProbe): (Plan, bool) {
    var (outcome, source) := RequeueSource(s.disk, name, id, now);
    if source.None? then (Plan(outcome, []), s.paused)
    else
      var dir := DirFor(name).value;
      if dir == Sent || dir == Dlq then
        var (verdict, paused) := AdmitVerdict(l, s.paused, s.disk, |source.value.data|, probe);
        (match verdict
         case Admitted => Plan(Ok, RequeueSteps(dir, id, source.value))
         case Rejected => Plan(AtCapacity, [])
         case ProbeFailed => Plan(Failed, []),
         paused)
      else (Plan(Ok, RequeueSteps(dir, id, source.value)), s.paused)
  }

  function DeletePlan(disk: Disk, id: Id, dryRun: bool): Plan {
    if !ValidRequeueId(id) || Slot(Inbound, id) !in disk then Plan(NotFound, [])
    else match disk[Slot(Inbound, id)]
      case Corrupt => Plan(Failed, [])
      case Decoded(m) =>
        if m.quarantine.None? then Plan(InvalidTransition, [])
        else if dryRun then Plan(Ok, [])
        else Plan(Ok, [Remove(Slot(Inbound, id))])
  }

  /** Entries a scan for due messages takes out: undecodable files and expired holds. */
  predicate SweptOut(disk: Disk, s: Slot, now: int)
    requires s in disk
  {
    PendingDir(s.dir) && (disk[s].Corrupt? || QuarantineExpired(disk[s].msg, now))
  }

  /** The scan's effect; the files in `stuck` could not be moved aside or removed, or were not reached. */
  function Swept(disk: Disk, now: int, stuck: set<Slot>): Disk {
    map s | s in disk && (s in stuck || !SweptOut(disk, s, now)) :: disk[s]
  }

  ghost function PlanOf(l: Limits, s: QState, op: Op): (Plan, bool)
    requires !op.OpSweep?
  {
    match op
    case OpEnqueue(msg, now, probe) => EnqueuePlan(l, s, msg, now, probe)
    case OpAck(id, msg, now) => (AckPlan(s.disk, id, msg, now), s.paused)
    case OpRetry(msg, delay, reason, now) => (ReschedulePlan(s.disk, msg.id, Retried(msg, delay, reason, now)),
                                              s.paused)
    case OpDefer(msg, delay, now) => (ReschedulePlan(s.disk, msg.id, Deferred(msg, delay, now)), s.paused)
    case OpFail(msg, reason, now) => (FailPlan(s.disk, msg.id, DeadLettered(msg, reason, now)), s.paused)
    case OpRequeue(name, id, now, probe) => RequeuePlan(l, s, name, id, now, probe)
    case OpDelete(id, dryRun) => (DeletePlan(s.disk, id, dryRun), s.paused)
  }

  /** One operation whose file-system steps all succeed. */
  ghost function Exec(l: Limits, s: QState, op: Op): QState {
    if op.OpSweep? then QState(Swept(s.disk, op.now, op.stuck), s.paused)
    else
      var (plan, paused) := PlanOf(l, s, op);
      QState(Run(s.disk, plan.steps), paused)
  }

  ghost function ExecAll(l: Limits, s: QState, ops: seq<Op>): QState
    decreases |ops|
  {
    if ops == [] then s else ExecAll(l, Exec(l, s, ops[0]), ops[1..])
  }

  // ----- Effects of step sequences -----------------------------------------

  lemma {:induction false} RunKeeps(disk: Disk, steps: seq<Step>, s: Slot)
    requires forall i :: 0 <= i < |steps| ==> steps[i].slot != s
    ensures s in Run(disk, steps) <==> s in disk
    ensures s in disk ==> Run(disk, steps)[s] == disk[s]
    decreases |steps|
  {
    if steps != [] { RunKeeps(Apply(disk, steps[0]), steps[1..], s); }
  }

  lemma {:induction false} RunRemoves(disk: Disk, steps: seq<Step>, s: Slot)
    requires Remove(s) in steps
    requires forall i :: 0 <= i < |steps| ==> steps[i].slot == s ==> steps[i].Remove?
    ensures s !in Run(disk, steps)
    decreases |steps|
  {
    if Remove(s) in steps[1..] {
      RunRemoves(Apply(disk, steps[0]), steps[1..], s);
    } else {
      assert steps[0] == Remove(s);
      forall i | 0 <= i < |steps[1..]| ensures steps[1..][i].slot != s {
        assert steps[1..][i] == steps[i + 1] && steps[1..][i] in steps[1..];
      }
      RunKeeps(Apply(disk, steps[0]), steps[1..], s);
    }
  }

  lemma RunSingle(disk: Disk, steps: seq<Step>)
    requires |steps| == 1
    ensures Run(disk, steps) == Apply(disk, steps[0])
  {
    assert Run(Apply(disk, steps[0]), steps[1..]) == Apply(disk, steps[0]);
  }

  // ----- Crash safety ------------------------------------------------------

  predicate Present(disk: Disk, id: Id) {
    exists d: Dir :: Slot(d, id) in disk
  }

  predicate PendingCopy(disk: Disk, id: Id, d: Dir) {
    PendingDir(d) && Slot(d, id) in disk
  }

  function StateOf(target: Dir): State {
    match target
    case Inbound => StInbound case Retry => StRetry case Legacy => StPending case Sent => StSent case Dlq => StDlq
  }

  /**
   * A move stopped after any prefix of its steps: the message is still in a
   * state directory, what a restart sees is either a pending state or the
   * target, every copy is the old file or the new record, and no other message
   * is touched.
   */
  lemma MoveStoppedAnywhere(disk: Disk, id: Id, target: Dir, msg: Message, k: nat)
    requires IsPendingState(MessageState(disk, id))
    requires target == Retry || target == Sent || target == Dlq
    requires k <= |Move(id, target, msg)|
    ensures var after := Run(disk, Move(id, target, msg)[..k]);
      && Present(after, id)
      && (IsPendingState(MessageState(after, id)) || MessageState(after, id) == StateOf(target) ||
          (target == Dlq && MessageState(after, id) == StSent && Slot(Sent, id) in disk))
      && (k > 0 ==> Slot(target, id) in after && after[Slot(target, id)] == Decoded(msg))
      && (forall d: Dir :: Slot(d, id) in after ==>
            (Slot(d, id) in disk && after[Slot(d, id)] == disk[Slot(d, id)]) ||
              (d == target && after[Slot(d, id)] == Decoded(msg)))
      && (forall s: Slot :: s.id != id ==> (s in after <==> s in disk) && (s in disk ==> after[s] == disk[s]))
  {
    var steps := Move(id, target, msg)[..k];
    var after := Run(disk, steps);
    MoveSteps(id, target, msg);
    forall s: Slot | s.id != id ensures (s in after <==> s in disk) && (s in disk ==> after[s] == disk[s]) {
      RunKeeps(disk, steps, s);
    }
    if k > 0 {
      var first, tail := Apply(disk, steps[0]), steps[1..];
      assert after == Run(first, tail);
      TailKeeps(first, tail, id, target);
    }
  }

  /** A move writes its target and then removes pending copies elsewhere. */
  lemma MoveSteps(id: Id, target: Dir, msg: Message)
    ensures
      var steps := Move(id, target, msg);
      && steps[0] == Write(Slot(target, id), Decoded(msg))
      && forall i :: 1 <= i < |steps| ==> Removes(steps[i], id, target)
  {
  }

  predicate Removes(s: Step, id: Id, target: Dir) { s.Remove? && s.slot.id == id && s.slot.dir != target }

  /** Removes leave what they do not name. */
  lemma TailKeeps(disk: Disk, tail: seq<Step>, id: Id, target: Dir)
    requires forall i :: 0 <= i < |tail| ==> Removes(tail[i], id, target)
    ensures
      var after := Run(disk, tail);
      && (Slot(target, id) in after <==> Slot(target, id) in disk)
      && (Slot(target, id) in disk ==> after[Slot(target, id)] == disk[Slot(target, id)])
      && forall d: Dir :: Slot(d, id) in after ==> Slot(d, id) in disk && after[Slot(d, id)] == disk[Slot(d, id)]
  {
    var after := Run(disk, tail);
    RunKeeps(disk, tail, Slot(target, id));
    forall d: Dir | Slot(d, id) in after ensures Slot(d, id) in disk && after[Slot(d, id)] == disk[Slot(d, id)] {
      if Remove(Slot(d, id)) in tail {
        RunRemoves(disk, tail, Slot(d, id));
      } else {
        forall i | 0 <= i < |tail| ensures tail[i].slot != Slot(d, id) {
          assert tail[i] in tail && Removes(tail[i], id, target);
        }
        RunKeeps(disk, tail, Slot(d, id));
      }
    }
  }

  /** A completed move leaves the target and no other pending copy, whatever copies there were. */
  lemma MoveCompleted(disk: Disk, id: Id, target: Dir, msg: Message)
    requires target == Retry || target == Sent || target == Dlq
    ensures var after := Run(disk, Move(id, target, msg));
      && Slot(target, id) in after && after[Slot(target, id)] == Decoded(msg)
      && (forall d: Dir :: PendingCopy(after, id, d) ==> d == target)
      && (forall s: Slot :: (s.id != id || (s.dir != target && !PendingDir(s.dir))) ==>
            (s in after <==> s in disk) && (s in disk ==> after[s] == disk[s]))
  {
    var steps := Move(id, target, msg);
    var first := Apply(disk, steps[0]);
    RunKeeps(first, steps[1..], Slot(target, id));
    forall d: Dir | PendingDir(d) && d != target ensures Slot(d, id) !in Run(disk, steps) {
      var rm := Remove(Slot(d, id));
      assert rm in steps[1..] by {
        assert steps[1..] == Cleanup(id, target);
        assert target == Retry ==> Cleanup(id, target) == [Remove(Slot(Inbound, id)), Remove(Slot(Legacy, id))];
        assert target != Retry ==>
          Cleanup(id, target) == [Remove(Slot(Inbound, id)), Remove(Slot(Retry, id)), Remove(Slot(Legacy, id))];
        assert target == Retry ==>
          Cleanup(id, target)[0] == Remove(Slot(Inbound, id)) && Cleanup(id, target)[1] == Remove(Slot(Legacy, id));
        assert target != Retry ==>
          Cleanup(id, target)[0] == Remove(Slot(Inbound, id)) && Cleanup(id, target)[1] == Remove(Slot(Retry, id)) &&
            Cleanup(id, target)[2] == Remove(Slot(Legacy, id));
      }
      RunRemoves(first, steps[1..], Slot(d, id));
    }
    forall s: Slot | s.id != id || (s.dir != target && !PendingDir(s.dir))
      ensures (s in Run(disk, steps) <==> s in disk) && (s in disk ==> Run(disk, steps)[s] == disk[s])
    {
      RunKeeps(disk, steps, s);
    }
  }

  predicate IsTransition(op: Op) {
    op.OpAck? || op.OpRetry? || op.OpDefer? || op.OpFail? || op.OpRequeue?
  }

  function IdOf(op: Op): Id
    requires !op.OpSweep?
  {
    match op
    case OpEnqueue(msg, _, _) => msg.id
    case OpAck(id, _, _) => id
    case OpRetry(msg, _, _, _) => msg.id
    case OpDefer(msg, _, _) => msg.id
    case OpFail(msg, _, _) => msg.id
    case OpRequeue(_, id, _, _) => id
    case OpDelete(id, _) => id
  }

  /** An operation touches no slot of any other message. */
  lemma ExecLeavesOthers(l: Limits, s: QState, op: Op, slot: Slot)
    requires !op.OpSweep? && slot.id != IdOf(op)
    ensures slot in Exec(l, s, op).disk <==> slot in s.disk
    ensures slot in s.disk ==> Exec(l, s, op).disk[slot] == s.disk[slot]
  {
    RunKeeps(s.disk, PlanOf(l, s, op).0.steps, slot);
  }

  /** No transition loses the message at any step, whichever step is the last one performed. */
  lemma TransitionNeverLoses(l: Limits, s: QState, op: Op, k: nat)
    requires IsTransition(op) && Present(s.disk, IdOf(op))
    requires k <= |PlanOf(l, s, op).0.steps|
    ensures Present(Run(s.disk, PlanOf(l, s, op).0.steps[..k]), IdOf(op))
  {
    var id, steps := IdOf(op), PlanOf(l, s, op).0.steps;
    if k == 0 || steps == [] {
      assert steps[..k] == [];
    } else if op.OpRequeue? {
      assert steps[0].Write? && steps[0].slot == Slot(Inbound, id);
      var first := Apply(s.disk, steps[0]);
      assert Run(s.disk, steps[..k]) == Run(first, steps[..k][1..]);
      RunKeeps(first, steps[..k][1..], Slot(Inbound, id));
    } else {
      var target := steps[0].slot.dir;
      assert steps == Move(id, target, steps[0].file.msg);
      MoveStoppedAnywhere(s.disk, id, target, steps[0].file.msg, k);
    }
  }

  /**
   * AckSent, Retry, Defer or Fail that reports success leaves its target as the
   * only pending copy (none for the two final states), whatever duplicates an
   * earlier crash left behind, and the final record where it belongs.
   */
  lemma SuccessLeavesOnlyTheTarget(l: Limits, s: QState, op: Op)
    requires op.OpAck? || op.OpRetry? || op.OpDefer? || op.OpFail?
    requires PlanOf(l, s, op).0.outcome == Ok
    ensures var after := Exec(l, s, op).disk; var id := IdOf(op);
      && (op.OpAck? ==> Slot(Sent, id) in after && forall d: Dir :: !PendingCopy(after, id, d))
      && (op.OpFail? ==> Slot(Dlq, id) in after && forall d: Dir :: !PendingCopy(after, id, d))
      && (op.OpRetry? || op.OpDefer? ==> Slot(Retry, id) in after && forall d: Dir ::
          PendingCopy(after, id, d) ==> d == Retry)
      && (op.OpRetry? ==> after[Slot(Retry, id)] == Decoded(Retried(op.msg, op.delay, op.reason, op.now)))
      && (op.OpDefer? ==> after[Slot(Retry, id)] == Decoded(Deferred(op.msg, op.delay, op.now)))
  {
    var id, steps := IdOf(op), PlanOf(l, s, op).0.steps;
    if steps != [] {
      assert steps == Move(id, steps[0].slot.dir, steps[0].file.msg);
      MoveCompleted(s.disk, id, steps[0].slot.dir, steps[0].file.msg);
    }
  }

  /** Repeating an interrupted transition finishes it: the same target, no duplicate left. */
  lemma RedoAfterCrash(disk: Disk, id: Id, target: Dir, msg: Message, again: Message, k: nat)
    requires IsPendingState(MessageState(disk, id))
    requires target == Retry || target == Sent || target == Dlq
    requires k <= |Move(id, target, msg)|
    ensures var crashed := Run(disk, Move(id, target, msg)[..k]);
      IsPendingState(MessageState(crashed, id)) ==>
        var after := Run(crashed, Move(id, target, again));
        && Slot(target, id) in after && after[Slot(target, id)] == Decoded(again)
        && (forall d: Dir :: PendingCopy(after, id, d) ==> d == target)
        && (forall t: Slot :: t.id != id ==> (t in after <==> t in disk) && (t in disk ==> after[t] == disk[t]))
  {
    var crashed := Run(disk, Move(id, target, msg)[..k]);
    MoveStoppedAnywhere(disk, id, target, msg, k);
    MoveCompleted(crashed, id, target, again);
  }

  // ----- One directory per message in crash-free runs ----------------------

  ghost predicate OneHome(disk: Disk) {
    forall id: Id, d: Dir, e: Dir :: Slot(d, id) in disk && Slot(e, id) in disk ==> d == e
  }

  lemma ExecKeepsOneHome(l: Limits, s: QState, op: Op)
    requires OneHome(s.disk)
    ensures OneHome(Exec(l, s, op).disk)
  {
    if !op.OpSweep? {
      var id, steps := IdOf(op), PlanOf(l, s, op).0.steps;
      if steps == [] {
      } else if op.OpEnqueue? || op.OpDelete? {
        RunSingle(s.disk, steps);
      } else if op.OpRequeue? {
        RequeueEffect(s.disk, DirFor(op.name).value, id, steps[0].file.msg);
      } else {
        assert steps == Move(id, steps[0].slot.dir, steps[0].file.msg);
        MoveCompleted(s.disk, id, steps[0].slot.dir, steps[0].file.msg);
        HomeAfterMove(s.disk, id, steps[0].slot.dir, steps[0].file.msg);
      }
    }
  }

  lemma HomeAfterMove(disk: Disk, id: Id, target: Dir, msg: Message)
    requires OneHome(disk) && IsPendingState(MessageState(disk, id))
    requires target == Retry || target == Sent || target == Dlq
    ensures OneHome(Run(disk, Move(id, target, msg)))
    ensures forall d: Dir :: Slot(d, id) in Run(disk, Move(id, target, msg)) ==> d == target
  {
    MoveCompleted(disk, id, target, msg);
    var home := if Slot(Inbound, id) in disk then Inbound else if Slot(Retry, id) in disk then Retry else Legacy;
    assert Slot(home, id) in disk;
    var after := Run(disk, Move(id, target, msg));
    forall d: Dir | Slot(d, id) in after ensures d == target {
      assert PendingCopy(after, id, d) || d == target;
    }
    forall other: Id, d: Dir, e: Dir | Slot(d, other) in after && Slot(e, other) in after ensures d == e {
      if other != id { assert Slot(d, other) in disk && Slot(e, other) in disk; }
    }
  }

  lemma RequeueEffect(disk: Disk, dir: Dir, id: Id, msg: Message)
    ensures var after := Run(disk, RequeueSteps(dir, id, msg));
      && after == (disk[Slot(Inbound, id) := Decoded(msg)] - (if dir == Inbound then {} else {Slot(dir, id)}))
  {
    var steps := RequeueSteps(dir, id, msg);
    var first := Apply(disk, steps[0]);
    assert Run(disk, steps) == Run(first, steps[1..]);
    if dir != Inbound {
      assert steps[1..] == [Remove(Slot(dir, id))];
      assert Run(first, steps[1..]) == Run(Apply(first, steps[1]), steps[1..][1..]);
    }
  }

  lemma {:induction false} CrashFreeRunsKeepOneHome(l: Limits, s: QState, ops: seq<Op>)
    requires OneHome(s.disk)
    ensures OneHome(ExecAll(l, s, ops).disk)
    decreases |ops|
  {
    if ops != [] {
      ExecKeepsOneHome(l, s, ops[0]);
      CrashFreeRunsKeepOneHome(l, Exec(l, s, ops[0]), ops[1..]);
    }
  }

  // ----- Capacity over whole runs ------------------------------------------

  ghost predicate WithinLimits(l: Limits, disk: Disk) {
    && (l.maxMessages > 0 ==> PendingCount(disk) <= l.maxMessages)
    && (l.maxBytes > 0 ==> PendingBytes(disk) <= l.maxBytes)
  }

  /** Retry and Defer are handed the message a pending record holds: the payload is not swapped for a larger one. */
  ghost predicate KeepsData(disk: Disk, op: Op) {
    op.OpRetry? || op.OpDefer? ==>
      exists d: Dir :: PendingCopy(disk, op.msg.id, d) && SizeOf(disk[Slot(d, op.msg.id)]) >= |op.msg.data|
  }

  lemma AddPending(disk: Disk, slot: Slot, file: File)
    requires PendingDir(slot.dir) && slot !in disk
    ensures PendingCount(disk[slot := file]) == PendingCount(disk) + 1
    ensures PendingBytes(disk[slot := file]) == PendingBytes(disk) + SizeOf(file)
  {
    var after := disk[slot := file];
    assert PendingSlots(after) == PendingSlots(disk) + {slot};
    SumSplit(after, PendingSlots(after), slot);
    assert PendingSlots(after) - {slot} == PendingSlots(disk);
    SumAgree(after, disk, PendingSlots(disk));
  }

  lemma {:induction false} FewerPending(after: Disk, before: Disk)
    requires PendingSlots(after) <= PendingSlots(before)
    requires forall s :: s in PendingSlots(after) ==> SizeOf(after[s]) <= SizeOf(before[s])
    ensures PendingCount(after) <= PendingCount(before) && PendingBytes(after) <= PendingBytes(before)
  {
    SubsetCount(PendingSlots(after), PendingSlots(before));
    SubsetSum(after, before, PendingSlots(after), PendingSlots(before));
  }

  lemma SubsetCount<T>(a: set<T>, b: set<T>)
    requires a <= b
    ensures |a| <= |b|
  {
    assert b == a + (b - a);
  }

  lemma {:induction false} SubsetSum(after: Disk, before: Disk, a: set<Slot>, b: set<Slot>)
    requires a <= b && a <= after.Keys && b <= before.Keys
    requires forall s :: s in a ==> SizeOf(after[s]) <= SizeOf(before[s])
    ensures SumSizes(after, a) <= SumSizes(before, b)
    decreases b
  {
    if b != {} {
      var c :| c in b;
      SumSplit(before, b, c);
      if c in a { SumSplit(after, a, c); }
      SubsetSum(after, before, a - {c}, b - {c});
      assert c !in a ==> a - {c} == a;
    }
  }

  /** Moving the pending copies of one message onto a single slot does not grow the usage. */
  lemma CollapseOntoOne(after: Disk, before: Disk, home: Slot, target: Slot)
    requires home in PendingSlots(before) && target in PendingSlots(after)
    requires PendingSlots(after) - {target} <= PendingSlots(before) - {home}
    requires forall s :: s in PendingSlots(after) - {target} && s in before ==> SizeOf(after[s]) <= SizeOf(before[s])
    requires SizeOf(after[target]) <= SizeOf(before[home])
    ensures PendingCount(after) <= PendingCount(before) && PendingBytes(after) <= PendingBytes(before)
  {
    var a, b := PendingSlots(after), PendingSlots(before);
    SubsetCount(a - {target}, b - {home});
    SumSplit(after, a, target);
    SumSplit(before, b, home);
    SubsetSum(after, before, a - {target}, b - {home});
  }

  lemma FinalMoveShrinks(disk: Disk, id: Id, target: Dir, msg: Message)
    requires target == Sent || target == Dlq
    ensures var after := Run(disk, Move(id, target, msg));
      PendingCount(after) <= PendingCount(disk) && PendingBytes(after) <= PendingBytes(disk)
  {
    var after := Run(disk, Move(id, target, msg));
    MoveCompleted(disk, id, target, msg);
    forall t: Slot | t in PendingSlots(after) ensures t in disk && after[t] == disk[t] {
      assert PendingCopy(after, t.id, t.dir);
    }
    FewerPending(after, disk);
  }

  lemma RescheduleShrinks(disk: Disk, id: Id, d: Dir, msg: Message)
    requires PendingCopy(disk, id, d) && SizeOf(disk[Slot(d, id)]) >= |msg.data|
    ensures var after := Run(disk, Move(id, Retry, msg));
      PendingCount(after) <= PendingCount(disk) && PendingBytes(after) <= PendingBytes(disk)
  {
    var after := Run(disk, Move(id, Retry, msg));
    MoveCompleted(disk, id, Retry, msg);
    forall t: Slot | t in PendingSlots(after) && t != Slot(Retry, id)
      ensures t.id != id && t in disk && after[t] == disk[t] {
      assert PendingCopy(after, t.id, t.dir);
    }
    CollapseOntoOne(after, disk, Slot(d, id), Slot(Retry, id));
  }

  /** An operation that runs to its end keeps the usage within the maxima, whatever duplicates an earlier crash left. */
  lemma ExecStaysWithinLimits(l: Limits, s: QState, op: Op)
    requires WithinLimits(l, s.disk) && KeepsData(s.disk, op)
    ensures WithinLimits(l, Exec(l, s, op).disk)
  {
    var after := Exec(l, s, op).disk;
    if op.OpSweep? {
      FewerPending(after, s.disk);
    } else {
      var id, steps := IdOf(op), PlanOf(l, s, op).0.steps;
      if steps == [] {
        assert after == s.disk;
      } else if op.OpEnqueue? {
        RunSingle(s.disk, steps);
        AddPending(s.disk, Slot(Inbound, id), steps[0].file);
      } else if op.OpDelete? {
        RunSingle(s.disk, steps);
        FewerPending(after, s.disk);
      } else if op.OpRequeue? {
        RequeueWithinLimits(l, s, op);
      } else {
        MoveWithinLimits(l, s, op);
      }
    }
  }

  lemma MoveWithinLimits(l: Limits, s: QState, op: Op)
    requires op.OpRetry? || op.OpDefer? || op.OpAck? || op.OpFail?
    requires WithinLimits(l, s.disk) && KeepsData(s.disk, op) && PlanOf(l, s, op).0.steps != []
    ensures WithinLimits(l, Exec(l, s, op).disk)
  {
    var id, steps := IdOf(op), PlanOf(l, s, op).0.steps;
    if op.OpRetry? || op.OpDefer? {
      var d: Dir :| PendingCopy(s.disk, id, d) && SizeOf(s.disk[Slot(d, id)]) >= |op.msg.data|;
      assert steps == Move(id, Retry, steps[0].file.msg);
      RescheduleShrinks(s.disk, id, d, steps[0].file.msg);
    } else {
      assert steps == Move(id, steps[0].slot.dir, steps[0].file.msg);
      FinalMoveShrinks(s.disk, id, steps[0].slot.dir, steps[0].file.msg);
    }
  }

  lemma RequeueWithinLimits(l: Limits, s: QState, op: Op)
    requires op.OpRequeue? && WithinLimits(l, s.disk)
    requires PlanOf(l, s, op).0.steps != []
    ensures WithinLimits(l, Exec(l, s, op).disk)
  {
    var id, dir, steps := op.id, DirFor(op.name).value, PlanOf(l, s, op).0.steps;
    var after, msg := Exec(l, s, op).disk, steps[0].file.msg;
    RequeueEffect(s.disk, dir, id, msg);
    var home, target := Slot(dir, id), Slot(Inbound, id);
    assert home in s.disk && SizeOf(s.disk[home]) == |msg.data|;
    if PendingDir(dir) {
      CollapseOntoOne(after, s.disk, home, target);
    } else {
      var without := s.disk - {target};
      FewerPending(without, s.disk);
      AddPending(without, target, Decoded(msg));
      FewerPending(after, without[target := Decoded(msg)]);
    }
  }

  ghost predicate RunKeepsData(l: Limits, s: QState, ops: seq<Op>)
    decreases |ops|
  {
    ops == [] || (KeepsData(s.disk, ops[0]) && RunKeepsData(l, Exec(l, s, ops[0]), ops[1..]))
  }

  /** In every state a crash-free run reaches, pending count and bytes are within the configured maxima. */
  lemma {:induction false} RunsStayWithinLimits(l: Limits, s: QState, ops: seq<Op>)
    requires WithinLimits(l, s.disk) && RunKeepsData(l, s, ops)
    ensures WithinLimits(l, ExecAll(l, s, ops).disk)
    decreases |ops|
  {
    if ops != [] {
      ExecStaysWithinLimits(l, s, ops[0]);
      RunsStayWithinLimits(l, Exec(l, s, ops[0]), ops[1..]);
    }
  }

  // ----- Hysteresis --------------------------------------------------------

  /** The operation put a new record into the pending directories. */
  ghost predicate Admits(l: Limits, s: QState, op: Op) {
    !op.OpSweep? && PlanOf(l, s, op).0.outcome == Ok && PlanOf(l, s, op).0.steps != [] &&
    (op.OpEnqueue? || (op.OpRequeue? && (op.name == NameSent || op.name == NameDlq)))
  }

  ghost predicate CapacityRejects(l: Limits, s: QState, op: Op) {
    !op.OpSweep? && PlanOf(l, s, op).0.outcome == AtCapacity
  }

  /** Both usages at or below the low watermark, and the disk has room for this record. */
  ghost predicate Drained(l: Limits, s: QState, op: Op)
    requires op.OpEnqueue? || op.OpRequeue?
  {
    && AtOrBelow(PendingCount(s.disk), l.maxMessages, LowPercent(l))
    && AtOrBelow(PendingBytes(s.disk), l.maxBytes, LowPercent(l))
    && DiskRoom(l, op.probe)
  }

  lemma PausedUntilDrained(l: Limits, s: QState, op: Op)
    requires Enabled(l)
    ensures s.paused && Admits(l, s, op) ==> Drained(l, s, op)
    ensures s.paused && !Admits(l, s, op) ==> Exec(l, s, op).paused
    ensures CapacityRejects(l, s, op) ==> Exec(l, s, op).paused
    ensures Admits(l, s, op) ==> !Exec(l, s, op).paused
  {}

  /**
   * After a capacity rejection nothing new becomes pending until the usages are
   * at or below the low watermark and the disk has room: the first admission
   * after the rejection sees a drained queue.
   */
  lemma {:induction false} FirstAdmissionAfterRejectionIsDrained(l: Limits, s: QState, reject: Op, quiet: seq<Op>,
                                                                 op: Op)
    requires Enabled(l) && CapacityRejects(l, s, reject)
    requires forall i :: 0 <= i < |quiet| ==> !Admits(l, ExecAll(l, Exec(l, s, reject), quiet[..i]), quiet[i])
    requires Admits(l, ExecAll(l, Exec(l, s, reject), quiet), op)
    ensures Drained(l, ExecAll(l, Exec(l, s, reject), quiet), op)
  {
    PausedUntilDrained(l, s, reject);
    StaysPaused(l, Exec(l, s, reject), quiet);
    PausedUntilDrained(l, ExecAll(l, Exec(l, s, reject), quiet), op);
  }

  lemma {:induction false} StaysPaused(l: Limits, s: QState, quiet: seq<Op>)
    requires Enabled(l) && s.paused
    requires forall i :: 0 <= i < |quiet| ==> !Admits(l, ExecAll(l, s, quiet[..i]), quiet[i])
    ensures ExecAll(l, s, quiet).paused
    decreases |quiet|
  {
    if quiet != [] {
      assert quiet[..0] == [];
      assert !Admits(l, ExecAll(l, s, quiet[..0]), quiet[0]);
      PausedUntilDrained(l, s, quiet[0]);
      var next, rest := Exec(l, s, quiet[0]), quiet[1..];
      forall i | 0 <= i < |rest| ensures !Admits(l, ExecAll(l, next, rest[..i]), rest[i]) {
        assert quiet[..i + 1][1..] == rest[..i] && quiet[..i + 1][0] == quiet[0];
        assert !Admits(l, ExecAll(l, s, quiet[..i + 1]), quiet[i + 1]);
      }
      StaysPaused(l, next, rest);
    }
  }

  // ----- The store object --------------------------------------------------

  /**
   * The mutable store. Each mutating method takes `io`, the number of
   * file-system mutations the disk performs before it fails; the plan stops
   * there and the method reports an error.
   */
  class Store {
    const limits: Limits
    var disk: Disk
    var paused: bool

    constructor (limits: Limits, disk: Disk)
      ensures this.limits == limits && this.disk == disk && !this.paused
    {
      this.limits, this.disk, this.paused := limits, disk, false;
    }

    ghost function View(): QState
      reads this
    {
      QState(disk, paused)
    }

    method Usage() returns (ok: bool, count: nat, bytes: nat)
      ensures ok <==> Scannable(disk)
      ensures ok ==> count == PendingCount(disk) && bytes == PendingBytes(disk)
    {
      var todo := PendingSlots(disk);
      ok, count, bytes := true, 0, 0;
      while todo != {}
        invariant todo <= PendingSlots(disk)
        invariant count + |todo| == PendingCount(disk)
        invariant bytes + SumSizes(disk, todo) == PendingBytes(disk)
        invariant forall s :: s in PendingSlots(disk) - todo ==> disk[s].Decoded?
        decreases todo
      {
        var s :| s in todo;
        if disk[s].Corrupt? {
          return false, 0, 0;
        }
        SumSplit(disk, todo, s);
        count, bytes := count + 1, bytes + |disk[s].msg.data|;
        todo := todo - {s};
      }
    }

    method Admit(size: nat, probe: DiskProbe) returns (verdict: Admission)
      modifies this`paused
      ensures (verdict, paused) == AdmitVerdict(limits, old(paused), disk, size, probe)
    {
      if !Enabled(limits) {
        return Admitted;
      }
      var ok, count, bytes := Usage();
      if !ok {
        return ProbeFailed;
      }
      var l, low := limits, LowPercent(limits);
      var diskOK := true;
      if l.minFree > 0 {
        if probe.free.None? {
          return ProbeFailed;
        }
        diskOK := probe.free.value >= l.minFree && probe.encoded <= probe.free.value - l.minFree;
      }
      if paused && AtOrBelow(count, l.maxMessages, low) && AtOrBelow(bytes, l.maxBytes, low) && diskOK {
        paused := false;
      }
      if paused || (l.maxMessages > 0 && count >= l.maxMessages)
         || (l.maxBytes > 0 && size > l.maxBytes - bytes) || !diskOK
      {
        paused := true;
        return Rejected;
      }
      return Admitted;
    }

    method RemovePendingExcept(id: Id, except: Dir, io: nat) returns (ok: bool)
      modifies this`disk
      ensures disk == Run(old(disk), Prefix(Cleanup(id, except), io))
      ensures ok <==> io >= |Cleanup(id, except)|
    {
      var dirs := PENDING_DIRS;
      ghost var was, all := disk, Cleanup(id, except);
      var i, left := 0, io;
      while i < |dirs|
        invariant 0 <= i <= 3 && 0 <= left
        invariant Run(was, Prefix(all, io)) == Run(disk, Prefix(CleanupFrom(id, except, i), left))
        invariant io >= |all| <==> left >= |CleanupFrom(id, except, i)|
      {
        CleanupStep(id, except, i, disk, left);
        if dirs[i] != except {
          if left == 0 {
            return false;
          }
          disk := disk - {Slot(dirs[i], id)};
          left := left - 1;
        }
        i := i + 1;
      }
      return true;
    }

    method MoveTo(id: Id, target: Dir, msg: Message, io: nat) returns (r: Outcome)
      modifies this`disk
      ensures disk == Run(old(disk), Prefix(Move(id, target, msg), io))
      ensures r == if io < |Move(id, target, msg)| then Failed else Ok
    {
      if io == 0 {
        return Failed;
      }
      ghost var steps := Move(id, target, msg);
      assert steps[1..] == Cleanup(id, target);
      assert Prefix(steps, io)[0] == steps[0] && Prefix(steps, io)[1..] == Prefix(Cleanup(id, target), io - 1);
      disk := disk[Slot(target, id) := Decoded(msg)];
      var ok := RemovePendingExcept(id, target, io - 1);
      return if ok then Ok else Failed;
    }

    method AckSent(id: Id, msg: Message, now: int, io: nat) returns (r: Outcome)
      modifies this`disk
      ensures var plan := AckPlan(old(disk), id, msg, now);
        disk == Run(old(disk), Prefix(plan.steps, io)) && r == if io < |plan.steps| then Failed else plan.outcome
    {
      match MessageState(disk, id)
      case StSent => return Ok;
      case StDlq => return InvalidTransition;
      case StQuarantine => return InvalidTransition;
      case StNone => return NotFound;
      case StUnreadable => return Failed;
      case _ => r := MoveTo(id, Sent, msg.(updatedAt := now), io);
    }

    method Reschedule(msg: Message, delay: int, reason: Option<string>, now: int, io: nat) returns (r: Outcome)
      modifies this`disk
      ensures var plan := ReschedulePlan(old(disk), msg.id,
                if reason.Some? then Retried(msg, delay, reason.value, now) else Deferred(msg, delay, now));
        disk == Run(old(disk), Prefix(plan.steps, io)) && r == if io < |plan.steps| then Failed else plan.outcome
    {
      match MessageState(disk, msg.id)
      case StSent => return InvalidTransition;
      case StDlq => return InvalidTransition;
      case StQuarantine => return InvalidTransition;
      case StNone => return NotFound;
      case StUnreadable => return Failed;
      case _ =>
        var m := msg;
        if reason.Some? {
          m := m.(attempts := m.attempts + 1, lastError := reason.value);
        }
        m := m.(updatedAt := now);
        m := m.(nextAttempt := m.updatedAt + delay);
        r := MoveTo(msg.id, Retry, m, io);
    }

    method Fail(msg: Message, reason: string, now: int, io: nat) returns (r: Outcome)
      modifies this`disk
      ensures var plan := FailPlan(old(disk), msg.id, DeadLettered(msg, reason, now));
        disk == Run(old(disk), Prefix(plan.steps, io)) && r == if io < |plan.steps| then Failed else plan.outcome
    {
      match MessageState(disk, msg.id)
      case StDlq => return Ok;
      case StSent => return InvalidTransition;
      case StQuarantine => return InvalidTransition;
      case StNone => return NotFound;
      case StUnreadable => return Failed;
      case _ => r := MoveTo(msg.id, Dlq, DeadLettered(msg, reason, now), io);
    }

    method Enqueue(msg: Message, now: int, probe: DiskProbe, io: nat) returns (r: Outcome)
      modifies this
      ensures var (plan, p) := EnqueuePlan(limits, old(View()), msg, now, probe);
        && disk == Run(old(disk), Prefix(plan.steps, io)) && paused == p
        && r == if io < |plan.steps| then Failed else plan.outcome
    {
      if Blank(msg.id) {
        return BadId;
      }
      var st := MessageState(disk, msg.id);
      if st == StUnreadable {
        return Failed;
      }
      if st != StNone {
        return Ok;
      }
      var verdict := Admit(|msg.data|, probe);
      match verdict
      case Rejected => return AtCapacity;
      case ProbeFailed => return Failed;
      case Admitted =>
        if io == 0 {
          return Failed;
        }
        RunSingle(disk, [Write(Slot(Inbound, msg.id), Decoded(Stamped(msg, now)))]);
        disk := disk[Slot(Inbound, msg.id) := Decoded(Stamped(msg, now))];
        return Ok;
    }

    method RequeueFromState(name: StateName, id: Id, now: int, probe: DiskProbe, io: nat) returns (r: Outcome)
      modifies this
      ensures var (plan, p) := RequeuePlan(limits, old(View()), name, id, now, probe);
        && disk == Run(old(disk), Prefix(plan.steps, io)) && paused == p
        && r == if io < |plan.steps| then Failed else plan.outcome
    {
      var (outcome, source) := RequeueSource(disk, name, id, now);
      if source.None? {
        return outcome;
      }
      var dir, msg := DirFor(name).value, source.value;
      if dir == Sent || dir == Dlq {
        var verdict := Admit(|msg.data|, probe);
        if verdict == Rejected {
          return AtCapacity;
        } else if verdict == ProbeFailed {
          return Failed;
        }
      }
      ghost var was, steps := disk, RequeueSteps(dir, id, msg);
      RequeueEffect(was, dir, id, msg);
      if io == 0 {
        return Failed;
      }
      RunSingle(was, steps[..1]);
      disk := disk[Slot(Inbound, id) := Decoded(msg)];
      if dir != Inbound {
        if io == 1 {
          return Failed;
        }
        disk := disk - {Slot(dir, id)};
      }
      return Ok;
    }

    /**
     * The scan behind Due: poisoned files and expired holds leave, the due
     * records are returned. A poisoned file that cannot be moved aside is
     * passed over; a hold that cannot be removed ends the scan with an error,
     * and the files not reached by then stay.
     */
    method Sweep(now: int, stuck: set<Slot>) returns (ok: bool, due: set<Message>, ghost left: set<Slot>)
      modifies this`disk
      ensures disk == Swept(old(disk), now, left) && stuck <= left
      ensures ok <==> forall s :: s in old(disk) && s in stuck && SweptOut(old(disk), s, now) ==> old(disk)[s].Corrupt?
      ensures ok ==> left == stuck && due == set s | s in disk && IsDue(s, disk[s], now) :: disk[s].msg
      ensures !ok ==> due == {}
    {
      ghost var was := disk;
      var todo := PendingSlots(disk);
      ok, due, left := true, {}, stuck;
      while todo != {}
        invariant todo <= PendingSlots(was) && left == stuck
        invariant forall s :: s in todo ==> s in disk && disk[s] == was[s]
        invariant disk == Swept(was, now, stuck + todo)
        invariant forall s :: s in was && s !in todo && s in stuck && SweptOut(was, s, now) ==> was[s].Corrupt?
        invariant due == set s | s in disk && s !in todo && IsDue(s, disk[s], now) :: disk[s].msg
        decreases todo
      {
        var s :| s in todo;
        if SweptOut(disk, s, now) && s in stuck && disk[s].Decoded? {
          left := stuck + todo;
          return false, {}, left;
        }
        todo := todo - {s};
        if SweptOut(disk, s, now) {
          if s !in stuck { disk := disk - {s}; }
        } else if IsDue(s, disk[s], now) {
          due := due + {disk[s].msg};
        }
      }
    }
  }

  predicate IsDue(s: Slot, f: File, now: int) {
    PendingDir(s.dir) && f.Decoded? && f.msg.quarantine.None? && f.msg.nextAttempt <= now
  }

  const PENDING_DIRS: seq<Dir> := [Inbound, Retry, Legacy]

  function CleanupFrom(id: Id, except: Dir, i: nat): seq<Step> {
    (if except == Inbound || i > 0 then [] else [Remove(Slot(Inbound, id))]) +
    (if except == Retry || i > 1 then [] else [Remove(Slot(Retry, id))]) +
    (if except == Legacy || i > 2 then [] else [Remove(Slot(Legacy, id))])
  }

  lemma CleanupStep(id: Id, except: Dir, i: nat, disk: Disk, left: nat)
    requires i < 3
    ensures var here, rest := CleanupFrom(id, except, i), CleanupFrom(id, except, i + 1);
      && (PENDING_DIRS[i] == except ==> here == rest)
      && (PENDING_DIRS[i] != except ==> |here| == |rest| + 1)
      && (PENDING_DIRS[i] != except && left == 0 ==> Run(disk, Prefix(here, left)) == disk)
      && (PENDING_DIRS[i] != except && left > 0 ==>
            Run(disk, Prefix(here, left)) == Run(disk - {Slot(PENDING_DIRS[i], id)}, Prefix(rest, left - 1)))
  {
    CleanupShape(id, except, i);
    var here, rest := CleanupFrom(id, except, i), CleanupFrom(id, except, i + 1);
    if PENDING_DIRS[i] != except && left > 0 {
      RunPrefix(disk, Remove(Slot(PENDING_DIRS[i], id)), rest, left);
    }
  }

  lemma CleanupShape(id: Id, except: Dir, i: nat)
    requires i < 3
    ensures CleanupFrom(id, except, i) ==
      (if PENDING_DIRS[i] == except then [] else [Remove(Slot(PENDING_DIRS[i], id))]) + CleanupFrom(id, except, i + 1)
  {
    if i == 0 {
      assert PENDING_DIRS[i] == Inbound;
    } else if i == 1 {
      assert PENDING_DIRS[i] == Retry;
    } else {
      assert PENDING_DIRS[i] == Legacy;
    }
  }

  lemma RunPrefix(disk: Disk, s: Step, rest: seq<Step>, left: nat)
    requires left > 0
    ensures Run(disk, Prefix([s] + rest, left)) == Run(Apply(disk, s), Prefix(rest, left - 1))
  {
    assert Prefix([s] + rest, left)[1..] == Prefix(rest, left - 1);
  }
}
