/**
 The Celery worker itself (process_inspection and execute_wms_action in app/worker/tasks.py):
 one delivery, from taking its message to giving the lock back, as the worker executes it when
 nothing comes between. Its effect is a run of the delivery protocol.
 */
module Worker {
  import opened Options
  import opened Decisions
  import opened Delivery
  import opened Inspection
  import DeadLetters

  datatype SavedReason = OfTheRun(reason: Option<Reason>) | HitlLockedReinspection

  const ESCALATION_HISTORY_LIMIT := 20

  /** The part of an answer that is stored with the job: its agent_logs. */
  datatype Logs = Logs(reason: SavedReason, autoRefund: bool)

  /** What the graph answers, as far as the worker reads or rewrites it. The refund flag is in it twice. */
  datatype AiResult = AiResult(decision: WorkerDecision, autoRefund: bool, logs: Logs)

  /** The last statements: the result is saved, then its event is published. */
  datatype Finish = SaveRaises | AnnounceRaises | Announced

  /** How far one delivery gets, and what it is answered. */
  datatype Course =
    | QuorumLost
    | GuardRaises
    | PrepareRaises
    | ApiRaises
    | InferenceRaises
    | Answers(result: AiResult, tracked: bool, finish: Finish)

  datatype Reply =
    | LockFailed
    | LockedElsewhere
    | AlreadyTerminal(status: JobStatus)
    | Done(final: JobStatus)
    | Retried(countdown: nat)
    | DeadLettered

  function Pow2(n: nat): nat {
    if n == 0 then 1 else 2 * Pow2(n - 1)
  }

  // --- The delivery as protocol steps ------------------------------------------------------------

  /** The steps of a delivery from the status read on, from its preparation on, and so forth. */
  function HoldingSteps(s: System, m: Msg, course: Course): seq<Step>
    requires !course.QuorumLost?
  {
    if course.GuardRaises? then [OtherError(s.nextId)]
    else if !PassesGuard(s, m) then [Guard(s.nextId)]
    else [Guard(s.nextId)] + PreparingSteps(s.nextId, course)
  }

  function PreparingSteps(id: nat, course: Course): seq<Step>
    requires !course.QuorumLost? && !course.GuardRaises?
  {
    if course.PrepareRaises? then [OtherError(id)] else [Prepare(id)] + InferringSteps(id, course)
  }

  function InferringSteps(id: nat, course: Course): seq<Step>
    requires course.ApiRaises? || course.InferenceRaises? || course.Answers?
  {
    match course
    case ApiRaises => [ApiError(id)]
    case InferenceRaises => [OtherError(id)]
    case Answers(result, tracked, finish) => [Infer(id, result.decision)] + ActingSteps(id, tracked, finish)
  }

  function ActingSteps(id: nat, tracked: bool, finish: Finish): seq<Step> {
    [Act(id, tracked)] + FinishingSteps(id, finish)
  }

  function FinishingSteps(id: nat, finish: Finish): seq<Step> {
    match finish
    case SaveRaises => [OtherError(id)]
    case AnnounceRaises => [Save(id), OtherError(id)]
    case Announced => [Save(id), Announce(id)]
  }

  function CourseSteps(s: System, m: Msg, course: Course): seq<Step> {
    if course.QuorumLost? then [Lose(m)]
    else if LockLive(s) then [Start(m)]
    else [Start(m)] + HoldingSteps(s, m, course)
  }

  predicate Fresh(s: System) {
    forall id :: id in s.runs ==> id < s.nextId
  }

  // --- What a delivery leaves behind ---------------------------------------------------------------

  /** The answer as the worker executes and saves it: the HITL lock rewrites an approval, the outer refund flag and the
      logged reason. */
  function Kept(wasHitl: bool, r: AiResult): AiResult {
    if wasHitl && r.decision == APPROVE then AiResult(HITL, false, r.logs.(reason := HitlLockedReinspection)) else r
  }

  function ReplyTo(s: System, m: Msg, course: Course): Reply {
    if course.QuorumLost? then LockFailed
    else if LockLive(s) then LockedElsewhere
    else if course.GuardRaises? then DeadLettered
    else if !PassesGuard(s, m) then AlreadyTerminal(s.status)
    else if course.ApiRaises? && m.retries < MAX_RETRIES then Retried(Pow2(m.retries))
    else if course.Answers? && course.finish == Announced then Done(StatusFor(Kept(m.wasHitl, course.result).decision))
    else DeadLettered
  }

  /** The message has been taken; nothing is held. */
  function Taken(s: System, m: Msg): System {
    s.(queue := s.queue - multiset{m})
  }

  /** The lock was taken and given back. */
  function Visited(s: System, m: Msg): System {
    Taken(s, m).(nextId := s.nextId + 1, lock := None)
  }

  /** The job and the queues after the delivery. */
  function After(s: System, m: Msg, course: Course): System {
    match ReplyTo(s, m, course)
    case LockFailed => Taken(s, m)
    case LockedElsewhere => Taken(s, m)
    case AlreadyTerminal(_) => Visited(s, m)
    case Done(final) =>
      Visited(s, m).(status := final, updatedAt := s.now, item := Placed(s, m, course))
    case Retried(_) =>
      var again := m.(retries := m.retries + 1);
      Publish(Visited(s, m).(status := Processing, updatedAt := s.now), again)
    case DeadLettered =>
      FailedJob(Visited(s, m)).(item := Placed(s, m, course))
  }

  /** With the lock held the delivery reaches its save, and the save succeeds. */
  predicate Saves(status: JobStatus, m: Msg, course: Course) {
    (Terminal(status) ==> m.wasHitl) && course.Answers? && course.finish != SaveRaises
  }

  /** The history of escalations after an answer is saved: one for a human adds its reason, and the last 20 are kept. */
  function Escalated(history: seq<SavedReason>, r: AiResult): seq<SavedReason> {
    if r.decision == HITL then DeadLetters.Retained(history + [r.logs.reason], ESCALATION_HISTORY_LIMIT) else history
  }

  /** The rack action comes before the save, and stays even when the save fails. */
  function Placed(s: System, m: Msg, course: Course): ItemStatus {
    if course.Answers? && course.tracked && PassesGuard(s, m) then ItemFor(Kept(m.wasHitl, course.result).decision)
    else s.item
  }

  // --- The blocks of a delivery ------------------------------------------------------------------------

  /** How the try block ends. */
  datatype Attempt = Returned(reply: Reply) | ApiFailure | OtherFailure

  /** The message is taken and the lock is held. */
  function Entered(s: System, m: Msg): System {
    Taken(s, m).(nextId := s.nextId + 1, lock := Some(Lock(s.nextId, s.now + LEASE)))
  }

  /** What the try block does to the job, by the way it ends. */
  ghost predicate Tried(s: System, m: Msg, course: Course, end: Attempt, t: System) {
    match end
    case Returned(AlreadyTerminal(found)) => found == s.status && t == s && !PassesGuard(s, m) && !course.GuardRaises?
    case Returned(Done(final)) =>
      && course.Answers? && course.finish == Announced && PassesGuard(s, m) && final == StatusFor(Kept(m.wasHitl, course.result).decision)
      && t == s.(status := final, updatedAt := s.now, item := Placed(s, m, course))
    case Returned(_) => false
    case ApiFailure => course.ApiRaises? && PassesGuard(s, m) && t == s.(status := Processing, updatedAt := s.now)
    case OtherFailure =>
      && (course.GuardRaises? || (PassesGuard(s, m) && !course.ApiRaises? && !(course.Answers? && course.finish == Announced)))
      && t == s.(status := t.status, updatedAt := t.updatedAt, item := Placed(s, m, course))
  }

  function Recovery(m: Msg, end: Attempt): Reply {
    if end.ApiFailure? && m.retries < MAX_RETRIES then Retried(Pow2(m.retries)) else DeadLettered
  }

  /** What the except blocks do. */
  function Recovered(s: System, m: Msg, end: Attempt): System {
    if Recovery(m, end).Retried? then Publish(s, m.(retries := m.retries + 1)) else FailedJob(s)
  }

  /** What the finally block does. */
  function Freed(s: System, id: nat): System {
    s.(lock := Released(s.lock, id))
  }

  /** Without the lock nothing but the message is taken. */
  lemma UnlockedDelivery(s: System, m: Msg, course: Course)
    requires course.QuorumLost? || LockLive(s)
    ensures ReplyTo(s, m, course) == if course.QuorumLost? then LockFailed else LockedElsewhere
    ensures After(s, m, course) == Taken(s, m)
  {
  }

  lemma ReturnComposes(s: System, m: Msg, course: Course, reply: Reply, t: System)
    requires !course.QuorumLost? && !LockLive(s) && Tried(Entered(s, m), m, course, Returned(reply), t)
    ensures ReplyTo(s, m, course) == reply && After(s, m, course) == Freed(t, s.nextId)
  {
  }

  lemma ApiFailureComposes(s: System, m: Msg, course: Course, t: System)
    requires !course.QuorumLost? && !LockLive(s) && Tried(Entered(s, m), m, course, ApiFailure, t)
    ensures ReplyTo(s, m, course) == Recovery(m, ApiFailure)
    ensures After(s, m, course) == Freed(Recovered(t, m, ApiFailure), s.nextId)
  {
  }

  lemma OtherFailureComposes(s: System, m: Msg, course: Course, t: System)
    requires !course.QuorumLost? && !LockLive(s) && Tried(Entered(s, m), m, course, OtherFailure, t)
    ensures ReplyTo(s, m, course) == DeadLettered
    ensures After(s, m, course) == Freed(FailedJob(t), s.nextId)
  {
  }

  lemma BlocksCompose(s: System, m: Msg, course: Course, end: Attempt, t: System)
    requires !course.QuorumLost? && !LockLive(s) && Tried(Entered(s, m), m, course, end, t)
    ensures ReplyTo(s, m, course) == if end.Returned? then end.reply else Recovery(m, end)
    ensures After(s, m, course) == Freed(if end.Returned? then t else Recovered(t, m, end), s.nextId)
  {
    match end
    case Returned(reply) => ReturnComposes(s, m, course, reply, t);
    case ApiFailure => ApiFailureComposes(s, m, course, t);
    case OtherFailure => OtherFailureComposes(s, m, course, t);
  }

  // --- The worker ----------------------------------------------------------------------------------------

  class InspectionWorker {
    var now: nat
    var status: JobStatus
    var item: ItemStatus
    var createdAt: nat
    var updatedAt: nat
    var lock: Option<Lock>
    var queue: multiset<Msg>
    var unacked: multiset<Msg>
    var nextId: nat
    var deadLetters: nat
    var saved: Option<Logs>
    var escalations: seq<SavedReason>
    ghost var runs: map<nat, Delivery>    // the deliveries that other workers are in the middle of

    ghost function View(): System
      reads this
    {
      System(now, status, item, createdAt, updatedAt, lock, queue, unacked, runs, nextId, deadLetters)
    }

    /** The stored answer and the history, if the answer was saved; otherwise they are what they were. */
    ghost predicate Recorded(was: Option<Logs>, history: seq<SavedReason>, saves: bool, m: Msg, course: Course)
      requires saves ==> course.Answers?
      reads this
    {
      if saves then saved == Some(Kept(m.wasHitl, course.result).logs) && escalations == Escalated(history, Kept(m.wasHitl, course.result))
      else saved == was && escalations == history
    }

    method ExecuteWmsAction(decision: WorkerDecision, tracked: bool) returns (final: JobStatus)
      modifies this`item
      ensures final == StatusFor(decision)
      ensures item == if tracked then ItemFor(decision) else old(item)
    {
      if decision == HITL {
        final := HitlRequired;
      } else {
        final := if decision == APPROVE then JobApproved else JobRejected;
      }
      if !tracked {
        return;
      }
      item := if decision == HITL then ItemHitl else if decision == REJECT then ItemRejected else InStock;
    }

    /** save_inspection_result. */
    method SaveResult(result: AiResult, final: JobStatus)
      modifies this`status, this`updatedAt, this`saved, this`escalations
      ensures status == if old(status) == HitlRequired then HitlRequired else final
      ensures updatedAt == now && saved == Some(result.logs)
      ensures final == StatusFor(result.decision) ==> escalations == Escalated(old(escalations), result)
    {
      if final == HitlRequired {
        var history := escalations + [result.logs.reason];
        escalations := if |history| > ESCALATION_HISTORY_LIMIT then history[|history| - ESCALATION_HISTORY_LIMIT..] else history;
      }
      if status != HitlRequired {
        status := final;
      }
      updatedAt := now;
      saved := Some(result.logs);
    }

    /** The end of the try block, from the answer of the graph on. */
    method Conclude(m: Msg, course: Course) returns (end: Attempt)
      requires course.Answers? && status == Processing && updatedAt == now
      modifies this`status, this`updatedAt, this`item, this`saved, this`escalations
      ensures var k := Kept(m.wasHitl, course.result);
              && item == (if course.tracked then ItemFor(k.decision) else old(item))
              && end == (if course.finish == Announced then Returned(Done(StatusFor(k.decision))) else OtherFailure)
              && status == (if course.finish == SaveRaises then Processing else StatusFor(k.decision)) && updatedAt == now
      ensures Recorded(old(saved), old(escalations), course.finish != SaveRaises, m, course)
    {
      var result := course.result;
      if m.wasHitl && result.decision == APPROVE {
        result := result.(decision := HITL, autoRefund := false);
        result := result.(logs := result.logs.(reason := HitlLockedReinspection));
      }
      var final := ExecuteWmsAction(result.decision, course.tracked);
      if course.finish == SaveRaises {
        return OtherFailure;
      }
      SaveResult(result, final);
      if course.finish == AnnounceRaises {
        return OtherFailure;
      }
      return Returned(Done(status));
    }

    /** The try block past its guard. */
    method Inspect(m: Msg, course: Course) returns (end: Attempt)
      requires !course.QuorumLost? && !course.GuardRaises? && PassesGuard(View(), m)
      modifies this`status, this`updatedAt, this`item, this`saved, this`escalations
      ensures Tried(old(View()), m, course, end, View())
      ensures Recorded(old(saved), old(escalations), Saves(old(status), m, course), m, course)
    {
      if course.PrepareRaises? {
        return OtherFailure;
      }
      status, updatedAt := Processing, now;
      if course.ApiRaises? {
        return ApiFailure;
      }
      if course.InferenceRaises? {
        return OtherFailure;
      }
      end := Conclude(m, course);
    }

    /** The try block, with the lock held. */
    method Run(m: Msg, course: Course) returns (end: Attempt)
      requires !course.QuorumLost?
      modifies this`status, this`updatedAt, this`item, this`saved, this`escalations
      ensures Tried(old(View()), m, course, end, View())
      ensures Recorded(old(saved), old(escalations), Saves(old(status), m, course), m, course)
    {
      if course.GuardRaises? {
        return OtherFailure;
      }
      if (status == JobApproved || status == JobRejected) && !m.wasHitl {
        return Returned(AlreadyTerminal(status));
      }
      end := Inspect(m, course);
    }

    /** self.retry: the message goes back with one more retry. */
    method Retry(m: Msg) returns (countdown: nat)
      modifies this`queue
      ensures countdown == Pow2(m.retries)
      ensures View() == Publish(old(View()), m.(retries := m.retries + 1))
    {
      var again := m.(retries := m.retries + 1);
      queue := queue + multiset{again};
      countdown := Pow2(m.retries);
    }

    /** push_to_dlq and save_inspection_failed. */
    method DeadLetter()
      modifies this`status, this`updatedAt, this`deadLetters
      ensures View() == FailedJob(old(View()))
    {
      deadLetters := deadLetters + 1;
      status, updatedAt := Failed, now;
    }

    /** The except blocks, with the lock still held. */
    method Recover(m: Msg, end: Attempt) returns (reply: Reply)
      requires !end.Returned?
      modifies this`status, this`updatedAt, this`queue, this`deadLetters
      ensures reply == Recovery(m, end)
      ensures View() == Recovered(old(View()), m, end)
    {
      if end.ApiFailure? && m.retries < MAX_RETRIES {
        var countdown := Retry(m);
        return Retried(countdown);
      }
      DeadLetter();
      reply := DeadLettered;
    }

    /** The finally block: the lock is given back if it is still ours. */
    method Release(id: nat)
      modifies this`lock
      ensures View() == Freed(old(View()), id)
    {
      if lock.Some? && lock.value.owner == id {
        lock := None;
      }
    }

    /** The delivery from the lock on: the three blocks in a row. */
    method Hold(id: nat, m: Msg, course: Course) returns (reply: Reply, ghost end: Attempt, ghost t: System)
      requires !course.QuorumLost?
      modifies this
      ensures Tried(old(View()), m, course, end, t)
      ensures reply == if end.Returned? then end.reply else Recovery(m, end)
      ensures View() == Freed(if end.Returned? then t else Recovered(t, m, end), id)
      ensures Recorded(old(saved), old(escalations), Saves(old(status), m, course), m, course)
    {
      var how := Run(m, course);
      end, t := how, View();
      if how.Returned? {
        reply := how.reply;
      } else {
        reply := Recover(m, how);
      }
      Release(id);
    }

    /** The same, seen from before the lock was taken. */
    method HoldFor(ghost s: System, id: nat, m: Msg, course: Course) returns (reply: Reply)
      requires !course.QuorumLost? && !LockLive(s) && View() == Entered(s, m) && id == s.nextId
      modifies this
      ensures reply == ReplyTo(s, m, course) && View() == After(s, m, course)
      ensures Recorded(old(saved), old(escalations), Saves(s.status, m, course), m, course)
    {
      ghost var end, t;
      reply, end, t := Hold(id, m, course);
      BlocksCompose(s, m, course, end, t);
    }

    /** The lock is taken if it is free or has lapsed. */
    method Acquire() returns (ok: bool, id: nat)
      modifies this`nextId, this`lock
      ensures ok <==> !LockLive(old(View()))
      ensures View() == if ok then old(View()).(nextId := id + 1, lock := Some(Lock(id, now + LEASE))) else old(View())
      ensures id == old(nextId)
    {
      id := nextId;
      if lock.Some? && now < lock.value.expires {
        return false, id;
      }
      nextId, lock, ok := nextId + 1, Some(Lock(id, now + LEASE)), true;
    }

    method ProcessInspection(m: Msg, course: Course) returns (reply: Reply)
      requires m in queue
      modifies this
      ensures reply == ReplyTo(old(View()), m, course)
      ensures View() == After(old(View()), m, course)
      ensures Recorded(old(saved), old(escalations), !LockLive(old(View())) && Saves(old(status), m, course), m, course)
    {
      ghost var s := View();
      queue := queue - multiset{m};
      if course.QuorumLost? {
        UnlockedDelivery(s, m, course);
        return LockFailed;
      }
      var ok, id := Acquire();
      if !ok {
        UnlockedDelivery(s, m, course);
        return LockedElsewhere;
      }
      reply := HoldFor(s, id, m, course);
    }
  }
}
