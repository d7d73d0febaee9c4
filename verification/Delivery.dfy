/**
 The queue worker as a protocol (process_inspection in app/worker/tasks.py): deliveries of
 one job's messages, interleaved with a clock, a lease lock, crashes, redeliveries, the
 sweeper and people. A message is acknowledged when its delivery ends; one whose delivery
 crashed stays with the broker. Times are seconds.
 */
module Delivery {
  import opened Options
  import opened Decisions

  const LEASE := 300               // auto_release_time of the lock
  const HARD_LIMIT := 360          // task_time_limit
  const MAX_RETRIES := 3
  const PENDING_CUTOFF := 120
  const PROCESSING_CUTOFF := 480

  datatype JobStatus = Pending | Processing | JobApproved | JobRejected | HitlRequired | Failed

  datatype ItemStatus = NoItem | InStock | ItemRejected | ItemHitl

  datatype Msg = Msg(wasHitl: bool, retries: nat)

  datatype Lock = Lock(owner: nat, expires: nat)

  /** The statement that a delivery executes next. */
  datatype Phase =
    | AtGuard                               // lock held, status not yet read
    | AtPrepare
    | AtInfer
    | AtAct(decision: WorkerDecision)
    | AtSave(decision: WorkerDecision)
    | AtAnnounce                            // the result is saved, its event not yet published

  datatype Delivery = Delivery(msg: Msg, startedAt: nat, phase: Phase)

  datatype System = System(
    now: nat,
    status: JobStatus, item: ItemStatus, createdAt: nat, updatedAt: nat,
    lock: Option<Lock>,
    queue: multiset<Msg>,     // messages waiting at the broker
    unacked: multiset<Msg>,   // messages whose delivery crashed
    runs: map<nat, Delivery>, // live deliveries
    nextId: nat,
    deadLetters: nat)

  predicate Terminal(status: JobStatus) {
    status == JobApproved || status == JobRejected
  }

  predicate LockLive(s: System) {
    s.lock.Some? && s.now < s.lock.value.expires
  }

  predicate InLease(s: System, id: nat)
    requires id in s.runs
  {
    s.now < s.runs[id].startedAt + LEASE
  }

  predicate Stale(s: System) {
    || (s.status == Pending && s.createdAt + PENDING_CUTOFF < s.now)
    || (s.status == Processing && s.updatedAt + PROCESSING_CUTOFF < s.now)
  }

  // --- Steps -------------------------------------------------------------------------------------

  datatype Step =
    | Tick(seconds: nat)
    | Start(msg: Msg)
    | Guard(id: nat)
    | Prepare(id: nat)
    | Infer(id: nat, answer: WorkerDecision)
    | Act(id: nat, tracked: bool)      // tracked: a barcode is known and the rack assignment succeeds
    | Save(id: nat)
    | Announce(id: nat)
    | ApiError(id: nat)
    | OtherError(id: nat)
    | Crash(id: nat)
    | Restore(msg: Msg)                // the broker puts an unacknowledged message back
    | Duplicate(id: nat)               // the same for a live delivery, reserved long before it began
    | Lose(msg: Msg)
    | Drop(msg: Msg)                   // an unacknowledged message is lost
    | Sweep
    | Reinspect
    | InboundRetry
    | Override(approve: bool)
    | Recall

  /** The delivery that takes the step, if one does. */
  function Actor(step: Step): Option<nat> {
    match step
    case Guard(id) => Some(id)
    case Prepare(id) => Some(id)
    case Infer(id, _) => Some(id)
    case Act(id, _) => Some(id)
    case Save(id) => Some(id)
    case Announce(id) => Some(id)
    case ApiError(id) => Some(id)
    case OtherError(id) => Some(id)
    case _ => None
  }

  predicate ByHuman(step: Step) {
    step.Reinspect? || step.InboundRetry? || step.Override? || step.Recall?
  }

  /** No live delivery outlives the hard limit: it is killed before the clock passes it. */
  predicate MayPass(s: System, seconds: nat) {
    forall id :: id in s.runs ==> s.now + seconds <= s.runs[id].startedAt + HARD_LIMIT
  }

  predicate Enabled(s: System, step: Step) {
    match step
    case Tick(seconds) => MayPass(s, seconds)
    case Start(m) => m in s.queue
    case Guard(id) => id in s.runs && s.runs[id].phase == AtGuard
    case Prepare(id) => id in s.runs && s.runs[id].phase == AtPrepare
    case Infer(id, _) => id in s.runs && s.runs[id].phase == AtInfer
    case Act(id, _) => id in s.runs && s.runs[id].phase.AtAct?
    case Save(id) => id in s.runs && s.runs[id].phase.AtSave?
    case Announce(id) => id in s.runs && s.runs[id].phase == AtAnnounce
    case ApiError(id) => id in s.runs && s.runs[id].phase == AtInfer
    case OtherError(id) => id in s.runs
    case Crash(id) => id in s.runs
    case Restore(m) => m in s.unacked
    case Duplicate(id) => id in s.runs
    case Lose(m) => m in s.queue
    case Drop(m) => m in s.unacked
    case Sweep => true
    case Reinspect => true
    case InboundRetry => true
    case Override(_) => true
    case Recall => true
  }

  // --- What the steps do ---------------------------------------------------------------------------

  /** The lock is given back only by the delivery that holds it. */
  function Released(lock: Option<Lock>, id: nat): Option<Lock> {
    if lock.Some? && lock.value.owner == id then None else lock
  }

  function Ended(s: System, id: nat): System {
    s.(runs := s.runs - {id}, lock := Released(s.lock, id))
  }

  function At(s: System, id: nat, phase: Phase): System
    requires id in s.runs
  {
    s.(runs := s.runs[id := s.runs[id].(phase := phase)])
  }

  function Publish(s: System, m: Msg): System {
    s.(queue := s.queue + multiset{m})
  }

  /** The HITL lock: a delivery of a human-owned job may not approve. */
  function Locked(wasHitl: bool, answer: WorkerDecision): WorkerDecision {
    if wasHitl && answer == APPROVE then HITL else answer
  }

  /** execute_wms_action: the item's place follows the decision. */
  function ItemFor(decision: WorkerDecision): ItemStatus {
    match decision
    case HITL => ItemHitl
    case REJECT => ItemRejected
    case APPROVE => InStock
  }

  function StatusFor(decision: WorkerDecision): JobStatus {
    match decision
    case HITL => HitlRequired
    case REJECT => JobRejected
    case APPROVE => JobApproved
  }

  /** save_inspection_result: a job that waits for a human at that moment goes on waiting. */
  function SavedStatus(before: JobStatus, decision: WorkerDecision): JobStatus {
    if before == HitlRequired then HitlRequired else StatusFor(decision)
  }

  function FailedJob(s: System): System {
    s.(status := Failed, updatedAt := s.now, deadLetters := s.deadLetters + 1)
  }

  predicate HumanOwned(status: JobStatus) {
    status == HitlRequired || Terminal(status)
  }

  function Apply(s: System, step: Step): System
    requires Enabled(s, step)
  {
    match step
    case Tick(seconds) => s.(now := s.now + seconds)
    case Start(m) =>
      var t := s.(queue := s.queue - multiset{m});
      if LockLive(s) then t
      else t.(runs := s.runs[s.nextId := Delivery(m, s.now, AtGuard)], nextId := s.nextId + 1,
              lock := Some(Lock(s.nextId, s.now + LEASE)))
    case Guard(id) =>
      if Terminal(s.status) && !s.runs[id].msg.wasHitl then Ended(s, id) else At(s, id, AtPrepare)
    case Prepare(id) => At(s, id, AtInfer).(status := Processing, updatedAt := s.now)
    case Infer(id, answer) => At(s, id, AtAct(Locked(s.runs[id].msg.wasHitl, answer)))
    case Act(id, tracked) =>
      var d := s.runs[id].phase.decision;
      At(s, id, AtSave(d)).(item := if tracked then ItemFor(d) else s.item)
    case Save(id) =>
      At(s, id, AtAnnounce).(status := SavedStatus(s.status, s.runs[id].phase.decision), updatedAt := s.now)
    case Announce(id) => Ended(s, id)
    case ApiError(id) =>
      var m := s.runs[id].msg;
      if m.retries < MAX_RETRIES then Publish(Ended(s, id), m.(retries := m.retries + 1)) else FailedJob(Ended(s, id))
    case OtherError(id) => FailedJob(Ended(s, id))
    case Crash(id) => s.(runs := s.runs - {id}, unacked := s.unacked + multiset{s.runs[id].msg})
    case Restore(m) => Publish(s.(unacked := s.unacked - multiset{m}), m)
    case Duplicate(id) => Publish(s, s.runs[id].msg)
    case Lose(m) => s.(queue := s.queue - multiset{m})
    case Drop(m) => s.(unacked := s.unacked - multiset{m})
    case Sweep => if Stale(s) then Publish(s, Msg(false, 0)) else s
    case Reinspect => Publish(s.(status := Pending), Msg(HumanOwned(s.status), 0))
    case InboundRetry => Publish(s.(status := Pending, updatedAt := s.now), Msg(false, 0))
    case Override(approve) =>
      s.(status := if approve then JobApproved else JobRejected, item := if approve then InStock else ItemRejected)
    case Recall => s.(status := HitlRequired, item := if s.item == NoItem then NoItem else ItemHitl)
  }

  // --- Runs of the protocol --------------------------------------------------------------------------

  /** An accepted job: one plain message waits. */
  predicate Initial(s: System) {
    && s.status == Pending && s.item == NoItem && s.createdAt == s.updatedAt == s.now
    && s.lock == None && s.queue == multiset{Msg(false, 0)} && s.unacked == multiset{}
    && s.runs == map[] && s.nextId == 0 && s.deadLetters == 0
  }

  /** The steps can be taken one after the other from s, and end in t. */
  ghost predicate Leads(s: System, steps: seq<Step>, t: System)
    decreases |steps|
  {
    if steps == [] then s == t
    else Enabled(s, steps[0]) && Leads(Apply(s, steps[0]), steps[1..], t)
  }

  lemma FirstStep(s: System, step: Step, rest: seq<Step>, t: System)
    requires Enabled(s, step) && Leads(Apply(s, step), rest, t)
    ensures Leads(s, [step] + rest, t)
  {
    assert ([step] + rest)[1..] == rest;
  }

  lemma {:induction false} LeadsOn(s: System, a: seq<Step>, t: System, b: seq<Step>, u: System)
    requires Leads(s, a, t) && Leads(t, b, u)
    ensures Leads(s, a + b, u)
    decreases |a|
  {
    if a == [] {
      assert a + b == b;
    } else {
      LeadsOn(Apply(s, a[0]), a[1..], t, b, u);
      assert (a + b)[1..] == a[1..] + b;
    }
  }

  // --- An undisturbed delivery ----------------------------------------------------------------------

  function OpeningSteps(id: nat, m: Msg): seq<Step> {
    [Start(m), Guard(id)] + [Prepare(id)]
  }

  function JudgingSteps(id: nat, m: Msg, answer: WorkerDecision): seq<Step> {
    OpeningSteps(id, m) + [Infer(id, answer)]
  }

  function ClosingSteps(id: nat, tracked: bool): seq<Step> {
    [Act(id, tracked), Save(id), Announce(id)]
  }

  predicate PassesGuard(s: System, m: Msg) {
    !Terminal(s.status) || m.wasHitl
  }

  /** The system once an undisturbed delivery has its decision. */
  function Judged(s: System, m: Msg, answer: WorkerDecision): System {
    s.(queue := s.queue - multiset{m}, nextId := s.nextId + 1, lock := Some(Lock(s.nextId, s.now + LEASE)),
       runs := s.runs[s.nextId := Delivery(m, s.now, AtAct(Locked(m.wasHitl, answer)))],
       status := Processing, updatedAt := s.now)
  }

  lemma OneStep(s: System, a: Step, t: System)
    requires Enabled(s, a) && t == Apply(s, a)
    ensures Leads(s, [a], t)
  {
    FirstStep(s, a, [], t);
    assert [a] + [] == [a];
  }

  lemma ThenLeads(s: System, a: Step, u: System, rest: seq<Step>, t: System)
    requires Enabled(s, a) && u == Apply(s, a) && Leads(u, rest, t)
    ensures Leads(s, [a] + rest, t)
  {
    FirstStep(s, a, rest, t);
  }

  lemma TwoSteps(s: System, a: Step, u: System, b: Step, t: System)
    requires Enabled(s, a) && u == Apply(s, a)
    requires Enabled(u, b) && t == Apply(u, b)
    ensures Leads(s, [a, b], t)
  {
    OneStep(u, b, t);
    FirstStep(s, a, [b], t);
    assert [a] + [b] == [a, b];
  }

  /** A delivery has the lock and has passed the guard. */
  function Guarded(s: System, m: Msg): System {
    s.(queue := s.queue - multiset{m}, nextId := s.nextId + 1, lock := Some(Lock(s.nextId, s.now + LEASE)),
       runs := s.runs[s.nextId := Delivery(m, s.now, AtPrepare)])
  }

  lemma GuardedLeads(s: System, m: Msg)
    requires m in s.queue && !LockLive(s) && PassesGuard(s, m)
    ensures Leads(s, [Start(m), Guard(s.nextId)], Guarded(s, m))
  {
    var s1 := Apply(s, Start(m));
    assert Apply(s1, Guard(s.nextId)) == Guarded(s, m);
    TwoSteps(s, Start(m), s1, Guard(s.nextId), Guarded(s, m));
  }

  /** And it has marked the job as being processed; the inference is next. */
  function Readied(s: System, m: Msg): System {
    s.(queue := s.queue - multiset{m}, nextId := s.nextId + 1, lock := Some(Lock(s.nextId, s.now + LEASE)),
       runs := s.runs[s.nextId := Delivery(m, s.now, AtInfer)], status := Processing, updatedAt := s.now)
  }

  lemma PreparedLeads(s: System, m: Msg)
    ensures Leads(Guarded(s, m), [Prepare(s.nextId)], Readied(s, m))
  {
    assert Apply(Guarded(s, m), Prepare(s.nextId)) == Readied(s, m);
    OneStep(Guarded(s, m), Prepare(s.nextId), Readied(s, m));
  }

  lemma InferredLeads(s: System, m: Msg, answer: WorkerDecision)
    ensures Leads(Readied(s, m), [Infer(s.nextId, answer)], Judged(s, m, answer))
  {
    assert Apply(Readied(s, m), Infer(s.nextId, answer)) == Judged(s, m, answer);
    OneStep(Readied(s, m), Infer(s.nextId, answer), Judged(s, m, answer));
  }

  lemma ReadiedLeads(s: System, m: Msg)
    requires m in s.queue && !LockLive(s) && PassesGuard(s, m)
    ensures Leads(s, OpeningSteps(s.nextId, m), Readied(s, m))
  {
    var id := s.nextId;
    GuardedLeads(s, m);
    PreparedLeads(s, m);
    LeadsOn(s, [Start(m), Guard(id)], Guarded(s, m), [Prepare(id)], Readied(s, m));
  }

  lemma JudgingLeads(s: System, m: Msg, answer: WorkerDecision)
    requires m in s.queue && !LockLive(s) && PassesGuard(s, m)
    ensures Leads(s, JudgingSteps(s.nextId, m, answer), Judged(s, m, answer))
  {
    ReadiedLeads(s, m);
    InferredLeads(s, m, answer);
    LeadsOn(s, OpeningSteps(s.nextId, m), Readied(s, m), [Infer(s.nextId, answer)], Judged(s, m, answer));
  }

  /** The system once a delivery with a decision has executed and saved it. */
  function Closed(s: System, id: nat, tracked: bool): System
    requires id in s.runs && s.runs[id].phase.AtAct?
  {
    var d := s.runs[id].phase.decision;
    Ended(s, id).(status := SavedStatus(s.status, d), item := if tracked then ItemFor(d) else s.item, updatedAt := s.now)
  }

  lemma ClosingLeads(s: System, id: nat, tracked: bool)
    requires id in s.runs && s.runs[id].phase.AtAct?
    ensures Leads(s, ClosingSteps(id, tracked), Closed(s, id, tracked))
  {
    var s1 := Apply(s, Act(id, tracked));
    var s2 := Apply(s1, Save(id));
    var t := Closed(s, id, tracked);
    assert s2.runs - {id} == s.runs - {id};
    assert Apply(s2, Announce(id)) == t;
    TwoSteps(s1, Save(id), s2, Announce(id), t);
    FirstStep(s, Act(id, tracked), [Save(id), Announce(id)], t);
    assert ClosingSteps(id, tracked) == [Act(id, tracked)] + [Save(id), Announce(id)];
  }

  function DeliverySteps(id: nat, m: Msg, answer: WorkerDecision, tracked: bool): seq<Step> {
    JudgingSteps(id, m, answer) + ClosingSteps(id, tracked)
  }

  /** The system after an undisturbed delivery. */
  function Delivered(s: System, m: Msg, answer: WorkerDecision, tracked: bool): System {
    Closed(Judged(s, m, answer), s.nextId, tracked)
  }

  lemma DeliveryLeads(s: System, m: Msg, answer: WorkerDecision, tracked: bool)
    requires m in s.queue && !LockLive(s) && PassesGuard(s, m)
    ensures Leads(s, DeliverySteps(s.nextId, m, answer, tracked), Delivered(s, m, answer, tracked))
  {
    JudgingLeads(s, m, answer);
    ClosingLeads(Judged(s, m, answer), s.nextId, tracked);
    LeadsOn(s, JudgingSteps(s.nextId, m, answer), Judged(s, m, answer), ClosingSteps(s.nextId, tracked),
            Delivered(s, m, answer, tracked));
  }

  // --- A second message ---------------------------------------------------------------------------------

  function Waited(s: System, seconds: nat): System {
    s.(now := s.now + seconds)
  }

  /** Time passes until the lock is free, then another message of the job is delivered. */
  lemma LaterLeads(s: System, seconds: nat, m: Msg, answer: WorkerDecision, tracked: bool)
    requires MayPass(s, seconds) && m in s.queue && PassesGuard(s, m)
    requires s.lock.Some? ==> s.lock.value.expires <= s.now + seconds
    ensures Leads(s, [Tick(seconds)] + DeliverySteps(s.nextId, m, answer, tracked), Delivered(Waited(s, seconds), m, answer, tracked))
  {
    DeliveryLeads(Waited(s, seconds), m, answer, tracked);
    ThenLeads(s, Tick(seconds), Waited(s, seconds), DeliverySteps(s.nextId, m, answer, tracked),
              Delivered(Waited(s, seconds), m, answer, tracked));
  }

  /** A job that nobody takes up is swept, and has two messages then. */
  function Swept(s: System, seconds: nat): System {
    Publish(Waited(s, seconds), Msg(false, 0))
  }

  lemma SweptLeads(s: System, seconds: nat)
    requires MayPass(s, seconds) && s.status == Pending && s.createdAt + PENDING_CUTOFF < s.now + seconds
    ensures Leads(s, [Tick(seconds), Sweep], Swept(s, seconds))
  {
    TwoSteps(s, Tick(seconds), Waited(s, seconds), Sweep, Swept(s, seconds));
  }
}
