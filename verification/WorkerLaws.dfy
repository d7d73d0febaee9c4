/** What the worker does, seen from the protocol and from the message's side. */
module WorkerLaws {
  import opened Options
  import opened Decisions
  import opened Delivery
  import DeliveryLaws
  import opened Worker
  import Inspection
  import InspectionLaws
  import Checkpoints
  import Vision

  // --- A delivery is a run of the protocol -----------------------------------------------------------

  /** The lock has just been taken by the delivery. */
  function Begun(s: System, m: Msg): System {
    Entered(s, m).(runs := s.runs[s.nextId := Delivery(m, s.now, AtGuard)])
  }

  /** The delivery raises before it has touched the job. */
  lemma EarlyErrorIsARun(s: System, m: Msg, course: Course, phase: Phase)
    requires !LockLive(s) && Fresh(s) && (course.GuardRaises? || (course.PrepareRaises? && PassesGuard(s, m)))
    ensures Leads(Entered(s, m).(runs := s.runs[s.nextId := Delivery(m, s.now, phase)]), [OtherError(s.nextId)], After(s, m, course))
  {
    var u := Entered(s, m).(runs := s.runs[s.nextId := Delivery(m, s.now, phase)]);
    assert u.runs - {s.nextId} == s.runs;
    assert Apply(u, OtherError(s.nextId)) == After(s, m, course);
    OneStep(u, OtherError(s.nextId), After(s, m, course));
  }

  lemma SkipIsARun(s: System, m: Msg, course: Course)
    requires !course.QuorumLost? && !course.GuardRaises? && !LockLive(s) && Fresh(s) && !PassesGuard(s, m)
    ensures Leads(Begun(s, m), [Guard(s.nextId)], After(s, m, course))
  {
    assert Begun(s, m).runs - {s.nextId} == s.runs;
    assert Apply(Begun(s, m), Guard(s.nextId)) == After(s, m, course);
    OneStep(Begun(s, m), Guard(s.nextId), After(s, m, course));
  }

  lemma GuardedIsARun(s: System, m: Msg, rest: seq<Step>, t: System)
    requires PassesGuard(s, m) && Leads(PastGuard(s, m), rest, t)
    ensures Leads(Begun(s, m), [Guard(s.nextId)] + rest, t)
  {
    assert Apply(Begun(s, m), Guard(s.nextId)) == PastGuard(s, m);
    FirstStep(Begun(s, m), Guard(s.nextId), rest, t);
  }

  /** From the lock on, in protocol steps. */
  lemma HoldingIsARun(s: System, m: Msg, course: Course)
    requires !course.QuorumLost? && !LockLive(s) && Fresh(s)
    ensures Leads(Begun(s, m), HoldingSteps(s, m, course), After(s, m, course))
  {
    if course.GuardRaises? {
      EarlyErrorIsARun(s, m, course, AtGuard);
    } else if !PassesGuard(s, m) {
      SkipIsARun(s, m, course);
    } else {
      PreparedIsARun(s, m, course);
      GuardedIsARun(s, m, PreparingSteps(s.nextId, course), After(s, m, course));
    }
  }

  /** The status was read and let the delivery pass. */
  function PastGuard(s: System, m: Msg): System {
    Entered(s, m).(runs := s.runs[s.nextId := Delivery(m, s.now, AtPrepare)])
  }

  lemma PreparedIsARun(s: System, m: Msg, course: Course)
    requires !course.QuorumLost? && !course.GuardRaises? && !LockLive(s) && Fresh(s) && PassesGuard(s, m)
    ensures Leads(PastGuard(s, m), PreparingSteps(s.nextId, course), After(s, m, course))
  {
    if course.PrepareRaises? {
      EarlyErrorIsARun(s, m, course, AtPrepare);
    } else {
      InferringIsARun(s, m, course);
      assert Apply(PastGuard(s, m), Prepare(s.nextId)) == Inferring(s, m);
      FirstStep(PastGuard(s, m), Prepare(s.nextId), InferringSteps(s.nextId, course), After(s, m, course));
    }
  }

  /** The graph is at work. */
  function Inferring(s: System, m: Msg): System {
    Entered(s, m).(runs := s.runs[s.nextId := Delivery(m, s.now, AtInfer)], status := Processing, updatedAt := s.now)
  }

  lemma ApiErrorRecovers(s3: System, id: nat, m: Msg)
    requires id in s3.runs && s3.runs[id].phase == AtInfer && s3.runs[id].msg == m
    ensures Apply(s3, ApiError(id)) == Recovered(Ended(s3, id), m, ApiFailure)
  {
  }

  lemma AfterApiError(s: System, m: Msg)
    requires !LockLive(s) && PassesGuard(s, m)
    ensures After(s, m, ApiRaises) == Recovered(Visited(s, m).(status := Processing, updatedAt := s.now), m, ApiFailure)
  {
  }

  lemma ApiErrorIsARun(s: System, m: Msg)
    requires !LockLive(s) && Fresh(s) && PassesGuard(s, m)
    ensures Leads(Inferring(s, m), [ApiError(s.nextId)], After(s, m, ApiRaises))
  {
    EndsVisit(s, m);
    ApiErrorRecovers(Inferring(s, m), s.nextId, m);
    AfterApiError(s, m);
    OneStep(Inferring(s, m), ApiError(s.nextId), After(s, m, ApiRaises));
  }

  lemma OtherErrorIsARun(s: System, m: Msg)
    requires !LockLive(s) && Fresh(s) && PassesGuard(s, m)
    ensures Leads(Inferring(s, m), [OtherError(s.nextId)], After(s, m, InferenceRaises))
  {
    EndsVisit(s, m);
    OneStep(Inferring(s, m), OtherError(s.nextId), After(s, m, InferenceRaises));
  }

  lemma EndsVisit(s: System, m: Msg)
    requires Fresh(s)
    ensures Ended(Inferring(s, m), s.nextId) == Visited(s, m).(status := Processing, updatedAt := s.now)
  {
    assert Inferring(s, m).runs - {s.nextId} == s.runs;
  }

  lemma InferringIsARun(s: System, m: Msg, course: Course)
    requires course.ApiRaises? || course.InferenceRaises? || course.Answers?
    requires !LockLive(s) && Fresh(s) && PassesGuard(s, m)
    ensures Leads(Inferring(s, m), InferringSteps(s.nextId, course), After(s, m, course))
  {
    if course.Answers? {
      var id, s3 := s.nextId, Inferring(s, m);
      var s4 := Apply(s3, Infer(id, course.result.decision));
      AnsweredIsARun(s, s4, m, course);
      FirstStep(s3, Infer(id, course.result.decision), ActingSteps(id, course.tracked, course.finish), After(s, m, course));
    } else if course.ApiRaises? {
      ApiErrorIsARun(s, m);
    } else {
      OtherErrorIsARun(s, m);
    }
  }

  lemma AnsweredIsARun(s: System, s4: System, m: Msg, course: Course)
    requires course.Answers? && !LockLive(s) && Fresh(s) && PassesGuard(s, m)
    requires s4 == Entered(s, m).(status := Processing, updatedAt := s.now,
                     runs := s.runs[s.nextId := Delivery(m, s.now, AtAct(Locked(m.wasHitl, course.result.decision)))])
    ensures Leads(s4, ActingSteps(s.nextId, course.tracked, course.finish), After(s, m, course))
  {
    var id := s.nextId;
    ActedIsARun(s, m, course);
    assert Apply(s4, Act(id, course.tracked)) == Acted(s, m, course);
    FirstStep(s4, Act(id, course.tracked), FinishingSteps(id, course.finish), After(s, m, course));
  }

  /** The item has been placed. */
  function Acted(s: System, m: Msg, course: Course): System
    requires course.Answers?
  {
    Entered(s, m).(status := Processing, updatedAt := s.now, item := Placed(s, m, course),
      runs := s.runs[s.nextId := Delivery(m, s.now, AtSave(Locked(m.wasHitl, course.result.decision)))])
  }

  lemma FailedSaveIsARun(s: System, m: Msg, course: Course)
    requires course.Answers? && course.finish == SaveRaises && !LockLive(s) && Fresh(s) && PassesGuard(s, m)
    ensures Leads(Acted(s, m, course), [OtherError(s.nextId)], After(s, m, course))
  {
    assert Acted(s, m, course).runs - {s.nextId} == s.runs;
    OneStep(Acted(s, m, course), OtherError(s.nextId), After(s, m, course));
  }

  lemma SavedIsARun(s: System, m: Msg, course: Course)
    requires course.Answers? && course.finish != SaveRaises && !LockLive(s) && Fresh(s) && PassesGuard(s, m)
    ensures Leads(Acted(s, m, course), FinishingSteps(s.nextId, course.finish), After(s, m, course))
  {
    var id, s5 := s.nextId, Acted(s, m, course);
    var s6 := Apply(s5, Save(id));
    assert s6.runs - {id} == s.runs;
    TwoSteps(s5, Save(id), s6, if course.finish == Announced then Announce(id) else OtherError(id), After(s, m, course));
  }

  lemma ActedIsARun(s: System, m: Msg, course: Course)
    requires course.Answers? && !LockLive(s) && Fresh(s) && PassesGuard(s, m)
    ensures Leads(Acted(s, m, course), FinishingSteps(s.nextId, course.finish), After(s, m, course))
  {
    if course.finish == SaveRaises {
      FailedSaveIsARun(s, m, course);
    } else {
      SavedIsARun(s, m, course);
    }
  }

  /** An uninterrupted delivery by the worker is a run of the protocol, whatever happens in it. */
  lemma DeliveryIsARun(s: System, m: Msg, course: Course)
    requires m in s.queue && Fresh(s)
    ensures Leads(s, CourseSteps(s, m, course), After(s, m, course))
  {
    if course.QuorumLost? {
      OneStep(s, Lose(m), After(s, m, course));
    } else if LockLive(s) {
      OneStep(s, Start(m), After(s, m, course));
    } else {
      HoldingIsARun(s, m, course);
      assert Apply(s, Start(m)) == Begun(s, m);
      FirstStep(s, Start(m), HoldingSteps(s, m, course), After(s, m, course));
    }
  }

  /** And so it keeps every invariant of the protocol. */
  lemma WorkerKeepsSafe(s: System, m: Msg, course: Course)
    requires DeliveryLaws.Safe(s) && m in s.queue
    ensures DeliveryLaws.Safe(After(s, m, course))
  {
    DeliveryIsARun(s, m, course);
    DeliveryLaws.SafeAlways(s, CourseSteps(s, m, course), After(s, m, course));
  }

  // --- What a delivery comes to ------------------------------------------------------------------------

  /** The item is where the status of its job says. */
  predicate Agree(status: JobStatus, item: ItemStatus) {
    && (status == JobApproved <==> item == InStock)
    && (status == JobRejected <==> item == ItemRejected)
    && (status == HitlRequired <==> item == ItemHitl)
  }

  /** A finished delivery approves, refuses or hands over as it was answered, except that it hands over an approval of a
      job that a human owns; the item of a known barcode goes to stock, to the refused ones or to the human with it, and
      any other stays. */
  lemma OutcomeFollowsAnswer(s: System, m: Msg, course: Course)
    requires ReplyTo(s, m, course).Done?
    ensures var t := After(s, m, course);
            && (t.status == JobApproved <==> course.result.decision == APPROVE && !m.wasHitl)
            && (t.status == JobRejected <==> course.result.decision == REJECT)
            && (t.status == HitlRequired <==> course.result.decision == HITL || (course.result.decision == APPROVE && m.wasHitl))
            && ReplyTo(s, m, course) == Done(t.status)
            && (course.tracked ==> Agree(t.status, t.item)) && (!course.tracked ==> t.item == s.item)
  {
  }

  /** What the reply tells: the lock service failed, or another delivery holds a live lock, or a plain message met a finished
      job; a retry follows an API error as long as three have not been used up, waiting 1, 2 and 4 seconds; and a dead letter
      is left by everything else that raises. */
  lemma RepliesTell(s: System, m: Msg, course: Course)
    ensures var r, locked := ReplyTo(s, m, course), s.lock.Some? && s.now < s.lock.value.expires;
            var finished := (s.status == JobApproved || s.status == JobRejected) && !m.wasHitl;
            && (r == LockFailed <==> course.QuorumLost?)
            && (r == LockedElsewhere <==> !course.QuorumLost? && locked)
            && (r.AlreadyTerminal? <==> !course.QuorumLost? && !locked && !course.GuardRaises? && finished)
            && (r.AlreadyTerminal? ==> r.status == s.status)
            && (r.Retried? <==> course.ApiRaises? && !locked && !finished && m.retries < 3)
            && (r.Retried? ==> (m.retries == 0 ==> r.countdown == 1) && (m.retries == 1 ==> r.countdown == 2) && (m.retries == 2 ==> r.countdown == 4))
            && (r.Done? <==> course.Answers? && course.finish.Announced? && !locked && !finished)
  {
    assert Pow2(0) == 1 && Pow2(1) == 2 && Pow2(2) == 4;
  }

  /** A delivery that is not finished moves the item at most where its own answer says, and reaches no result. */
  lemma UnfinishedReachesNoResult(s: System, m: Msg, course: Course)
    requires !ReplyTo(s, m, course).Done?
    ensures var t := After(s, m, course);
            && (t.status == s.status || t.status == Failed || t.status == Processing)
            && (t.item == s.item || (course.Answers? && Agree(StatusFor(Kept(m.wasHitl, course.result).decision), t.item)))
  {
  }

  /** The same in the protocol, for a delivery between whose statements nothing comes. */
  lemma DeliveredAgrees(s: System, m: Msg, answer: WorkerDecision, tracked: bool)
    ensures var t := Delivered(s, m, answer, tracked);
            && (t.status == JobApproved <==> answer == APPROVE && !m.wasHitl)
            && (t.status == JobRejected <==> answer == REJECT)
            && (t.status == HitlRequired <==> answer == HITL || (answer == APPROVE && m.wasHitl))
            && (tracked ==> Agree(t.status, t.item)) && (!tracked ==> t.item == s.item)
  {
  }

  /** An escalation adds its reason to the end of the history, of which the last 20 stay; any other answer adds none. */
  lemma EscalationIsKept(history: seq<SavedReason>, r: AiResult)
    ensures var kept := Escalated(history, r);
            if r.decision == HITL
            then 1 <= |kept| <= 20 && kept[|kept| - 1] == r.logs.reason
                 && kept[..|kept| - 1] == history[|history| - (|kept| - 1)..] && (|kept| == 20 || |kept| == |history| + 1)
            else kept == history
  {
  }

  // --- Duplicates and the HITL lock ------------------------------------------------------------------

  /** A plain duplicate of a finished job takes its message and nothing else, exactly when its status read succeeds or
      it never gets the lock. */
  lemma DuplicateIsSkipped(s: System, m: Msg, course: Course)
    requires Terminal(s.status) && !m.wasHitl
    ensures (After(s, m, course).status == s.status && After(s, m, course).deadLetters == s.deadLetters)
              <==> (course.GuardRaises? ==> LockLive(s))
    ensures After(s, m, course).item == s.item
  {
  }

  /** A flagged delivery neither approves nor stocks nor refunds; it changes a saved answer only where it withdraws an
      approval. */
  lemma FlaggedDeliveryNeverApproves(s: System, m: Msg, course: Course)
    requires m.wasHitl
    ensures After(s, m, course).status == JobApproved ==> s.status == JobApproved
    ensures After(s, m, course).item == InStock ==> s.item == InStock
    ensures course.Answers? ==> Kept(true, course.result).decision != APPROVE
    ensures course.Answers? ==> (Kept(true, course.result) == course.result <==> course.result.decision != APPROVE)
  {
  }

  /** The save keeps a waiting status, but a delivery has overwritten its own job's status before: the one it saves
      follows the answer alone. */
  lemma OwnWaitingStatusIsNotKept(s: System, m: Msg, course: Course)
    requires ReplyTo(s, m, course).Done?
    ensures After(s, m, course).status == StatusFor(Kept(m.wasHitl, course.result).decision)
    ensures s.status == HitlRequired && !m.wasHitl && course.result.decision == APPROVE ==> After(s, m, course).status == JobApproved
  {
  }

  /** What the worker gets from a run of the graph. */
  ghost function GraphAnswer(v: Inspection.Invocation): AiResult {
    var f := Inspection.Run(v);
    AiResult(Inspection.ConvertState(f), f.autoRefund == Some(true), Logs(OfTheRun(f.reason), f.autoRefund == Some(true)))
  }

  /** The history of escalations never names a cause: the reason that it keeps is that a human has to look, or that the
      lock held. */
  lemma EscalationsNameNoCause(v: Inspection.Invocation, wasHitl: bool)
    ensures var k := Kept(wasHitl, GraphAnswer(v));
            k.decision == HITL ==>
              k.logs.reason == if wasHitl && GraphAnswer(v).decision == APPROVE then HitlLockedReinspection
                               else OfTheRun(Some(Inspection.AwaitingHumanReview))
  {
    InspectionLaws.StoredMarks(v);
  }

  /** A job that is not approved is stored with a refund exactly where the lock withdrew the approval of a mint book, whose
      logged flag it leaves alone, or where the checkpoint held the flag of an earlier run. */
  lemma StoredRefundsOfOthers(v: Inspection.Invocation, wasHitl: bool)
    ensures var k := Kept(wasHitl, GraphAnswer(v));
            k.logs.autoRefund && k.decision != APPROVE <==>
              || (wasHitl && GraphAnswer(v).decision == APPROVE && GraphAnswer(v).autoRefund)
              || (GraphAnswer(v).decision == HITL && v.before.autoRefund == Some(true)
                  && !Inspection.NothingReadable(v.cfg, InspectionLaws.LastScored(v)))
    ensures var k := Kept(wasHitl, GraphAnswer(v));
            k.autoRefund && k.decision != APPROVE ==> v.before.autoRefund == Some(true)
  {
    InspectionLaws.RefundsOfRun(v);
  }

  /** A mint book that a human owns, inspected again: it goes back to the human, stored with a refund. */
  lemma LockedMintIsStoredWithRefund(cfg: Vision.Config)
    requires Vision.Reads(cfg, [])
    ensures var k := Kept(true, GraphAnswer(Checkpoints.MintCall(cfg)));
            k.decision == HITL && !k.autoRefund && k.logs == Logs(HitlLockedReinspection, true)
  {
    Checkpoints.MintRun(cfg);
  }

  // --- A message that keeps failing -----------------------------------------------------------------------

  /** The system after the countdown of a retry. */
  function AfterCountdown(s: System, seconds: nat): System {
    s.(now := s.now + seconds)
  }

  /** Every execution of the message ends in an API error: the replies, and the system at the end. */
  function Failing(s: System, m: Msg): (seq<Reply>, System)
    decreases if m.retries < MAX_RETRIES then MAX_RETRIES - m.retries else 0
  {
    var reply, t := ReplyTo(s, m, ApiRaises), After(s, m, ApiRaises);
    if reply.Retried? && m.retries < MAX_RETRIES then
      var rest := Failing(AfterCountdown(t, reply.countdown), m.(retries := m.retries + 1));
      ([reply] + rest.0, rest.1)
    else ([reply], t)
  }

  /** The next execution of the message. */
  function NextTry(s: System, m: Msg): System {
    AfterCountdown(After(s, m, ApiRaises), Pow2(m.retries))
  }

  function Again(m: Msg): Msg {
    m.(retries := m.retries + 1)
  }

  lemma FailsOnce(s: System, m: Msg)
    requires !LockLive(s) && PassesGuard(s, m) && m.retries < MAX_RETRIES
    ensures var n := NextTry(s, m);
            !LockLive(n) && n.now == s.now + Pow2(m.retries) && n.item == s.item && n.status == Processing && n.deadLetters == s.deadLetters
    ensures Failing(s, m) == ([Retried(Pow2(m.retries))] + Failing(NextTry(s, m), Again(m)).0, Failing(NextTry(s, m), Again(m)).1)
  {
    assert ReplyTo(s, m, ApiRaises) == Retried(Pow2(m.retries));
  }

  /** What is left of a failing message: one execution for every retry, waits that double from 2^retries seconds on,
      and at the end one dead letter and a failed job. */
  ghost predicate FailsFor(s: System, retries: nat, replies: seq<Reply>, t: System)
    requires retries <= MAX_RETRIES
  {
    && |replies| == MAX_RETRIES - retries + 1
    && (forall k: nat :: k < |replies| - 1 ==> replies[k] == Retried(Pow2(retries + k)))
    && replies[|replies| - 1] == DeadLettered
    && t.status == Failed && t.item == s.item
    && t.deadLetters == s.deadLetters + 1
    && t.now == s.now + Pow2(MAX_RETRIES) - Pow2(retries)
  }

  ghost predicate FailsAs(s: System, m: Msg, r: (seq<Reply>, System)) {
    m.retries <= MAX_RETRIES && FailsFor(s, m.retries, r.0, r.1)
  }

  ghost predicate Fails(s: System, m: Msg) {
    FailsAs(s, m, Failing(s, m))
  }

  lemma FailsLast(s: System, m: Msg)
    requires !LockLive(s) && PassesGuard(s, m) && m.retries == MAX_RETRIES
    ensures Fails(s, m)
  {
    assert Failing(s, m) == ([DeadLettered], After(s, m, ApiRaises));
  }

  lemma OneMoreFailure(s: System, next: System, retries: nat, replies: seq<Reply>, t: System)
    requires retries < MAX_RETRIES && FailsFor(next, retries + 1, replies, t)
    requires next.item == s.item && next.deadLetters == s.deadLetters && next.now == s.now + Pow2(retries)
    ensures FailsFor(s, retries, [Retried(Pow2(retries))] + replies, t)
  {
    var all := [Retried(Pow2(retries))] + replies;
    forall k: nat | k < |all| - 1
      ensures all[k] == Retried(Pow2(retries + k))
    {
      if k > 0 {
        var j: nat := k - 1;
        assert all[k] == replies[j] && retries + 1 + j == retries + k;
      }
    }
  }

  lemma FailsAsBefore(s: System, next: System, m: Msg, r: (seq<Reply>, System))
    requires m.retries < MAX_RETRIES && FailsAs(next, Again(m), r)
    requires next.item == s.item && next.deadLetters == s.deadLetters && next.now == s.now + Pow2(m.retries)
    ensures FailsAs(s, m, ([Retried(Pow2(m.retries))] + r.0, r.1))
  {
    OneMoreFailure(s, next, m.retries, r.0, r.1);
  }

  /** If the next execution fails to the end, so does this one. */
  lemma FailsBefore(s: System, m: Msg)
    requires !LockLive(s) && PassesGuard(s, m) && m.retries < MAX_RETRIES
    ensures !LockLive(NextTry(s, m)) && PassesGuard(NextTry(s, m), Again(m))
    ensures Fails(NextTry(s, m), Again(m)) ==> Fails(s, m)
  {
    var next, again := NextTry(s, m), Again(m);
    FailsOnce(s, m);
    if Fails(next, again) {
      FailsAsBefore(s, next, m, Failing(next, again));
    }
  }

  lemma {:induction false} FailingFrom(s: System, m: Msg, left: nat)
    requires m.retries + left == MAX_RETRIES && !LockLive(s) && PassesGuard(s, m)
    ensures Fails(s, m)
    decreases left
  {
    if left == 0 {
      FailsLast(s, m);
    } else {
      FailsBefore(s, m);
      FailingFrom(NextTry(s, m), Again(m), left - 1);
    }
  }

  lemma FailingMessage(s: System, m: Msg)
    requires m.retries <= MAX_RETRIES && !LockLive(s) && PassesGuard(s, m)
    ensures FailsFor(s, m.retries, Failing(s, m).0, Failing(s, m).1)
  {
    FailingFrom(s, m, MAX_RETRIES - m.retries);
  }

  lemma FourExecutions(s: System, replies: seq<Reply>, t: System)
    requires FailsFor(s, 0, replies, t)
    ensures replies == [Retried(1), Retried(2), Retried(4), DeadLettered]
  {
    assert Pow2(0) == 1 && Pow2(1) == 2 && Pow2(2) == 4;
    assert replies[0] == Retried(Pow2(0 + 0)) && replies[1] == Retried(Pow2(0 + 1)) && replies[2] == Retried(Pow2(0 + 2));
  }

  /** From the first delivery on: four executions, countdowns of 1, 2 and 4 seconds, one dead letter. */
  lemma FailingJob(s: System)
    requires !LockLive(s) && !Terminal(s.status)
    ensures Failing(s, Msg(false, 0)).0 == [Retried(1), Retried(2), Retried(4), DeadLettered]
    ensures Failing(s, Msg(false, 0)).1.deadLetters == s.deadLetters + 1
  {
    FailingMessage(s, Msg(false, 0));
    FourExecutions(s, Failing(s, Msg(false, 0)).0, Failing(s, Msg(false, 0)).1);
  }
}
