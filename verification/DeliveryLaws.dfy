/** Safety of the delivery protocol over every interleaving. */
module DeliveryLaws {
  import opened Options
  import opened Decisions
  import opened Delivery

  // --- Where a live delivery comes from -------------------------------------------------------

  lemma StartOrigin(s: System, m: Msg, id: nat)
    requires m in s.queue && id in Apply(s, Start(m)).runs
    ensures var d := Apply(s, Start(m)).runs[id];
            (id in s.runs && d == s.runs[id]) || (id == s.nextId && d == Delivery(m, s.now, AtGuard))
  {
  }

  lemma OwnStepOrigin(s: System, step: Step, id: nat)
    requires Enabled(s, step) && Actor(step) == Some(id) && id in Apply(s, step).runs
    ensures id in s.runs && Apply(s, step).runs[id] == s.runs[id].(phase := Apply(s, step).runs[id].phase)
  {
  }

  lemma OtherStepOrigin(s: System, step: Step, id: nat)
    requires Enabled(s, step) && !step.Start? && Actor(step) != Some(id) && id in Apply(s, step).runs
    ensures id in s.runs && Apply(s, step).runs[id] == s.runs[id]
  {
  }

  /** A delivery keeps its message and its start; only a message taken from the queue begins one. */
  lemma RunsOrigin(s: System, step: Step, id: nat)
    requires Enabled(s, step) && id in Apply(s, step).runs
    ensures var d := Apply(s, step).runs[id];
            || (id in s.runs && d.msg == s.runs[id].msg && d.startedAt == s.runs[id].startedAt
                && (Actor(step) != Some(id) ==> d == s.runs[id]))
            || (step.Start? && id == s.nextId && d == Delivery(step.msg, s.now, AtGuard) && step.msg in s.queue)
  {
    if step.Start? {
      StartOrigin(s, step.msg, id);
    } else if Actor(step) == Some(id) {
      OwnStepOrigin(s, step, id);
    } else {
      OtherStepOrigin(s, step, id);
    }
  }

  // --- The lease is exclusive -----------------------------------------------------------------

  ghost predicate RunsTimely(s: System) {
    forall id :: id in s.runs ==> id < s.nextId && s.runs[id].startedAt <= s.now <= s.runs[id].startedAt + HARD_LIMIT
  }

  ghost predicate Timely(s: System) {
    s.updatedAt <= s.now && (s.lock.Some? ==> s.lock.value.owner < s.nextId) && RunsTimely(s)
  }

  /** A delivery within its lease holds the lock. */
  ghost predicate LeaseHeld(s: System) {
    forall id :: id in s.runs && InLease(s, id) ==> s.lock == Some(Lock(id, s.runs[id].startedAt + LEASE))
  }

  lemma RunsTimelyKept(s: System, step: Step)
    requires RunsTimely(s) && Enabled(s, step)
    ensures RunsTimely(Apply(s, step))
  {
    var t := Apply(s, step);
    assert t.nextId >= s.nextId && t.now == s.now + if step.Tick? then step.seconds else 0;
    forall id | id in t.runs
      ensures id < t.nextId && t.runs[id].startedAt <= t.now <= t.runs[id].startedAt + HARD_LIMIT
    {
      RunsOrigin(s, step, id);
    }
  }

  lemma TimelyKept(s: System, step: Step)
    requires Timely(s) && Enabled(s, step)
    ensures Timely(Apply(s, step))
  {
    RunsTimelyKept(s, step);
  }

  lemma LeaseHeldKept(s: System, step: Step)
    requires Timely(s) && LeaseHeld(s) && Enabled(s, step)
    ensures LeaseHeld(Apply(s, step))
  {
    var t := Apply(s, step);
    forall id | id in t.runs && InLease(t, id)
      ensures t.lock == Some(Lock(id, t.runs[id].startedAt + LEASE))
    {
      RunsOrigin(s, step, id);
      if id in s.runs {
        LockStays(s, step, id);
      }
    }
  }

  /** A live lock is given back by its own delivery only. */
  lemma LockStays(s: System, step: Step, id: nat)
    requires Enabled(s, step) && LockLive(s) && s.lock.value.owner == id && id in s.runs && id in Apply(s, step).runs
    ensures Apply(s, step).lock == s.lock
  {
  }

  // --- Prepared runs have touched the job ----------------------------------------------------------

  predicate Prepared(phase: Phase) {
    phase == AtInfer || phase.AtAct? || phase.AtSave? || phase == AtAnnounce
  }

  ghost predicate Touched(s: System) {
    forall id :: id in s.runs && Prepared(s.runs[id].phase) ==> s.runs[id].startedAt <= s.updatedAt
  }

  lemma TouchedKept(s: System, step: Step)
    requires Timely(s) && Touched(s) && Enabled(s, step)
    ensures Touched(Apply(s, step))
  {
    var t := Apply(s, step);
    UpdateIsLater(s, step);
    forall id | id in t.runs && Prepared(t.runs[id].phase)
      ensures t.runs[id].startedAt <= t.updatedAt
    {
      PreparedOrigin(s, step, id);
    }
  }

  lemma UpdateIsLater(s: System, step: Step)
    requires Timely(s) && Enabled(s, step)
    ensures s.updatedAt <= Apply(s, step).updatedAt && (step.Prepare? ==> Apply(s, step).updatedAt == s.now)
  {
  }

  /** A delivery is prepared by its own preparation only. */
  lemma PreparedOrigin(s: System, step: Step, id: nat)
    requires Enabled(s, step) && id in Apply(s, step).runs && Prepared(Apply(s, step).runs[id].phase)
    ensures id in s.runs && Apply(s, step).runs[id].startedAt == s.runs[id].startedAt
    ensures Prepared(s.runs[id].phase) || step == Prepare(id)
  {
    RunsOrigin(s, step, id);
  }

  // --- The HITL lock of a delivery -------------------------------------------------------------------

  predicate Approves(phase: Phase) {
    (phase.AtAct? || phase.AtSave?) && phase.decision == APPROVE
  }

  /** No delivery that carries the flag is about to approve. */
  ghost predicate FlagRespected(s: System) {
    forall id :: id in s.runs && s.runs[id].msg.wasHitl ==> !Approves(s.runs[id].phase)
  }

  lemma FlagRespectedKept(s: System, step: Step)
    requires FlagRespected(s) && Enabled(s, step)
    ensures FlagRespected(Apply(s, step))
  {
    var t := Apply(s, step);
    forall id | id in t.runs && t.runs[id].msg.wasHitl
      ensures !Approves(t.runs[id].phase)
    {
      RunsOrigin(s, step, id);
    }
  }

  // --- All of it, in every reachable state -------------------------------------------------------------

  ghost predicate Safe(s: System) {
    Timely(s) && LeaseHeld(s) && Touched(s) && FlagRespected(s)
  }

  lemma SafeKept(s: System, step: Step)
    requires Safe(s) && Enabled(s, step)
    ensures Safe(Apply(s, step))
  {
    TimelyKept(s, step);
    LeaseHeldKept(s, step);
    TouchedKept(s, step);
    FlagRespectedKept(s, step);
  }

  lemma {:induction false} SafeAlways(s: System, steps: seq<Step>, t: System)
    requires Safe(s) && Leads(s, steps, t)
    ensures Safe(t)
    decreases |steps|
  {
    if steps == [] {
    } else {
      SafeKept(s, steps[0]);
      SafeAlways(Apply(s, steps[0]), steps[1..], t);
    }
  }

  /** In every reachable state at most one delivery of the job is within its lease: two overlap only if one of them
      has outlived it. */
  lemma AtMostOneInLease(s0: System, steps: seq<Step>, s: System, a: nat, b: nat)
    requires Initial(s0) && Leads(s0, steps, s)
    requires a in s.runs && b in s.runs && a != b
    ensures !(s.now < s.runs[a].startedAt + 300 && s.now < s.runs[b].startedAt + 300)
  {
    SafeAlways(s0, steps, s);
  }

  /** Conversely, while the lock is not live every delivery has outlived its lease, and the next one gets in beside it. */
  lemma OutlivedLeaseAdmitsAnother(s: System, m: Msg)
    requires Safe(s) && !LockLive(s) && m in s.queue
    ensures forall id :: id in s.runs ==> !InLease(s, id)
    ensures Apply(s, Start(m)).runs == s.runs[s.nextId := Delivery(m, s.now, AtGuard)] && s.nextId !in s.runs
  {
  }

  /** A PROCESSING job that the sweeper takes for abandoned has no live delivery past its preparation: 480 s exceed
      the 360 s after which a delivery is killed. One that is live has just begun, over 120 s after the last update. */
  lemma SweptJobHasNoPreparedRun(s: System)
    requires Safe(s) && s.status == Processing && Stale(s)
    ensures forall id :: id in s.runs ==> !Prepared(s.runs[id].phase)
    ensures forall id :: id in s.runs ==> s.updatedAt + 120 < s.runs[id].startedAt
  {
  }

  /** The only delivery crashes; later its message comes back. */
  function Returned(s: System, id: nat, late: nat): System
    requires id in s.runs
  {
    var m := s.runs[id].msg;
    Apply(Waited(Apply(s, Crash(id)), late), Restore(m))
  }

  lemma ReturnLeads(s: System, id: nat, late: nat)
    requires s.runs.Keys == {id}
    ensures Leads(s, [Crash(id)] + [Tick(late), Restore(s.runs[id].msg)], Returned(s, id, late))
    ensures Returned(s, id, late)
            == s.(now := s.now + late, queue := s.queue + multiset{s.runs[id].msg}, runs := map[])
  {
    var m, gone := s.runs[id].msg, Apply(s, Crash(id));
    assert gone.runs == map[];
    assert gone.unacked - multiset{m} == s.unacked;
    TwoSteps(gone, Tick(late), Waited(gone, late), Restore(m), Returned(s, id, late));
    ThenLeads(s, Crash(id), gone, [Tick(late), Restore(m)], Returned(s, id, late));
  }

  /** A swept job can have a live delivery: the first one crashes, and its message is being delivered again when the
      sweeper sends another. */
  lemma SweptJobCanHaveALiveRun(s0: System) returns (steps: seq<Step>, s: System)
    requires Initial(s0)
    ensures Leads(s0, steps, s) && s.status == Processing && Stale(s)
    ensures s.runs.Keys == {1} && s.queue == multiset{} && Apply(s, Sweep).queue == multiset{Msg(false, 0)}
  {
    var m, late := Msg(false, 0), PROCESSING_CUTOFF + 1;
    var busy := Readied(s0, m);
    var back := Returned(busy, 0, late);
    ReadiedLeads(s0, m);
    ReturnLeads(busy, 0, late);
    s := Apply(back, Start(m));
    OneStep(back, Start(m), s);
    var first, second := OpeningSteps(0, m), [Crash(0)] + [Tick(late), Restore(m)];
    LeadsOn(s0, first, busy, second, back);
    LeadsOn(s0, first + second, back, [Start(m)], s);
    steps := first + second + [Start(m)];
  }

  // --- While every delivery fits its lease -------------------------------------------------------------

  /** The steps of the program and its environment; a delivery acts only within its lease. */
  predicate Fits(s: System, step: Step)
    requires Enabled(s, step)
  {
    && !ByHuman(step)
    && match Actor(step)
       case None => true
       case Some(id) => InLease(s, id)
  }

  /** Past the guard, the result not yet saved. */
  predicate AtWork(phase: Phase) {
    phase != AtGuard && phase != AtAnnounce
  }

  /** Whoever is at work without the flag works on an unfinished job. */
  ghost predicate GuardHolds(s: System) {
    forall id :: id in s.runs && InLease(s, id) && AtWork(s.runs[id].phase) && !s.runs[id].msg.wasHitl ==> !Terminal(s.status)
  }

  lemma GuardHoldsKept(s: System, step: Step)
    requires Safe(s) && GuardHolds(s) && Enabled(s, step) && Fits(s, step)
    ensures GuardHolds(Apply(s, step))
  {
    var t := Apply(s, step);
    forall id | id in t.runs && InLease(t, id) && AtWork(t.runs[id].phase) && !t.runs[id].msg.wasHitl
      ensures !Terminal(t.status)
    {
      RunsOrigin(s, step, id);
    }
  }

  /** The step is taken by a delivery of a human-owned job. */
  predicate ByFlagged(s: System, step: Step)
    requires Enabled(s, step)
  {
    match Actor(step)
    case None => false
    case Some(id) => s.runs[id].msg.wasHitl
  }

  /** The first status read of a delivery raises, or its last event after the save. */
  predicate RaisesAtTheEdge(s: System, step: Step)
    requires Enabled(s, step)
  {
    step.OtherError? && (s.runs[step.id].phase == AtGuard || s.runs[step.id].phase == AtAnnounce)
  }

  /** On a finished job, a step changes the result exactly when a flagged delivery does, or one that raises before its
      guard or after its save. */
  lemma FinishedJobStep(s: System, step: Step)
    requires Safe(s) && GuardHolds(s) && Terminal(s.status) && Enabled(s, step) && Fits(s, step)
    requires !ByFlagged(s, step)
    ensures if RaisesAtTheEdge(s, step) then Apply(s, step).status == Failed
            else Apply(s, step).status == s.status && Apply(s, step).item == s.item
  {
    if Actor(step).Some? {
      var id := Actor(step).value;
      assert !AtWork(s.runs[id].phase);
    }
  }

  /** Every step fits, none is flagged, and none raises at the edge of a delivery. */
  ghost predicate Quiet(s: System, steps: seq<Step>)
    decreases |steps|
  {
    steps == [] ||
    (Enabled(s, steps[0]) && Fits(s, steps[0]) && !ByFlagged(s, steps[0]) && !RaisesAtTheEdge(s, steps[0])
     && Quiet(Apply(s, steps[0]), steps[1..]))
  }

  /** Duplicates, redeliveries, sweeps, retries and crashes never change the result of a finished job again. */
  lemma {:induction false} FinishedJobStays(s: System, steps: seq<Step>, t: System)
    requires Safe(s) && GuardHolds(s) && Terminal(s.status)
    requires Leads(s, steps, t) && Quiet(s, steps)
    ensures t.status == s.status && t.item == s.item
    decreases |steps|
  {
    if steps == [] {
    } else {
      FinishedJobStep(s, steps[0]);
      SafeKept(s, steps[0]);
      GuardHoldsKept(s, steps[0]);
      FinishedJobStays(Apply(s, steps[0]), steps[1..], t);
    }
  }

  // --- From an accepted job ------------------------------------------------------------------------------

  /** Every step fits. */
  ghost predicate AllFit(s: System, steps: seq<Step>)
    decreases |steps|
  {
    steps == [] || (Enabled(s, steps[0]) && Fits(s, steps[0]) && AllFit(Apply(s, steps[0]), steps[1..]))
  }

  lemma {:induction false} GuardHoldsAlways(s: System, steps: seq<Step>, t: System)
    requires Safe(s) && GuardHolds(s) && Leads(s, steps, t) && AllFit(s, steps)
    ensures Safe(t) && GuardHolds(t)
    decreases |steps|
  {
    if steps == [] {
    } else {
      SafeKept(s, steps[0]);
      GuardHoldsKept(s, steps[0]);
      GuardHoldsAlways(Apply(s, steps[0]), steps[1..], t);
    }
  }

  /** However an accepted job got its result, while deliveries fit their leases nothing quiet changes it again. */
  lemma ResultStays(s0: System, before: seq<Step>, s: System, after: seq<Step>, t: System)
    requires Initial(s0) && Leads(s0, before, s) && AllFit(s0, before) && Terminal(s.status)
    requires Leads(s, after, t) && Quiet(s, after)
    ensures t.status == s.status && t.item == s.item
  {
    GuardHoldsAlways(s0, before, s);
    FinishedJobStays(s, after, t);
  }

  // --- Where the lease is too short -----------------------------------------------------------------------

  /** Nothing but time, the sweeper and deliveries that go through: no people, crashes, losses, errors or redeliveries. */
  predicate Ordinary(step: Step) {
    || step.Tick? || step.Sweep? || step.Start? || step.Guard? || step.Prepare? || step.Infer? || step.Act? || step.Save?
    || step.Announce?
  }

  ghost predicate Calm(steps: seq<Step>) {
    forall k :: 0 <= k < |steps| ==> Ordinary(steps[k])
  }

  lemma DeliveryIsCalm(id: nat, m: Msg, answer: WorkerDecision, tracked: bool, seconds: nat)
    ensures Calm(JudgingSteps(id, m, answer)) && Calm(ClosingSteps(id, tracked)) && Calm([Tick(seconds), Sweep])
    ensures Calm(DeliverySteps(id, m, answer, tracked)) && Calm([Tick(seconds)] + DeliverySteps(id, m, answer, tracked))
  {
  }

  /** The other deliveries do not notice a later one; the job has its result. */
  lemma LaterDecides(s: System, seconds: nat, m: Msg, answer: WorkerDecision, id: nat)
    requires id in s.runs && id < s.nextId
    ensures var t := Delivered(Waited(s, seconds), m, answer, true);
            && id in t.runs && t.runs[id] == s.runs[id]
            && t.status == StatusFor(Locked(m.wasHitl, answer))
  {
  }

  /** One delivery waits for the models, while its lease runs out: the second message decides the job first. */
  lemma DecidedMeanwhile(s: System, id: nat, m: Msg, answer: WorkerDecision) returns (steps: seq<Step>, decided: System)
    requires id in s.runs && id < s.nextId && !m.wasHitl
    requires MayPass(s, LEASE) && m in s.queue && PassesGuard(s, m)
    requires s.lock.Some? ==> s.lock.value.expires <= s.now + LEASE
    ensures Leads(s, steps, decided) && decided.status == StatusFor(answer) && Calm(steps)
    ensures id in decided.runs && decided.runs[id] == s.runs[id]
  {
    steps := [Tick(LEASE)] + DeliverySteps(s.nextId, m, answer, true);
    decided := Delivered(Waited(s, LEASE), m, answer, true);
    LaterLeads(s, LEASE, m, answer, true);
    LaterDecides(s, LEASE, m, answer, id);
    DeliveryIsCalm(s.nextId, m, answer, true, LEASE);
  }

  lemma ThenApproved(s: System, id: nat) returns (steps: seq<Step>, t: System)
    requires id in s.runs && s.runs[id].phase == AtInfer && !s.runs[id].msg.wasHitl
    ensures Leads(s, steps, t) && Calm(steps)
    ensures t.item == InStock && t.status == SavedStatus(s.status, APPROVE)
  {
    var u := Apply(s, Infer(id, APPROVE));
    steps, t := [Infer(id, APPROVE)] + ClosingSteps(id, true), Closed(u, id, true);
    ClosingLeads(u, id, true);
    ThenLeads(s, Infer(id, APPROVE), u, ClosingSteps(id, true), t);
    DeliveryIsCalm(id, Msg(false, 0), APPROVE, true, 0);
  }

  /** A job waits in the queue until the sweeper doubles its message; then the models are slow on its first delivery. */
  lemma SlowAfterSweep(s0: System) returns (steps: seq<Step>, slow: System)
    requires Initial(s0)
    ensures Leads(s0, steps, slow) && Calm(steps)
    ensures slow == Readied(Swept(s0, PENDING_CUTOFF + 1), Msg(false, 0))
  {
    var m, swept := Msg(false, 0), Swept(s0, PENDING_CUTOFF + 1);
    slow := Readied(swept, m);
    SweptLeads(s0, PENDING_CUTOFF + 1);
    ReadiedLeads(swept, m);
    steps := [Tick(PENDING_CUTOFF + 1), Sweep] + OpeningSteps(s0.nextId, m);
    LeadsOn(s0, [Tick(PENDING_CUTOFF + 1), Sweep], swept, OpeningSteps(s0.nextId, m), slow);
    DeliveryIsCalm(s0.nextId, m, APPROVE, true, PENDING_CUTOFF + 1);
  }

  /** The delivery limit exceeds the lease, and so a delivery whose models are slow can act on a job that a faster one
      decided meanwhile: a refused job is approved, and of a job that waits for a human the item is put into stock. All it
      takes is the sweeper's second message. */
  lemma SlowDeliveryActsOnDecidedJob(s0: System, answer: WorkerDecision)
      returns (before: seq<Step>, decided: System, after: seq<Step>, t: System)
    requires Initial(s0) && answer != APPROVE
    ensures Leads(s0, before, decided) && decided.status == StatusFor(answer) && Calm(before)
    ensures Leads(decided, after, t) && t.item == InStock && Calm(after)
    ensures t.status == if answer == HITL then HitlRequired else JobApproved
  {
    var first, slow := SlowAfterSweep(s0);
    var second;
    second, decided := DecidedMeanwhile(slow, s0.nextId, Msg(false, 0), answer);
    before := first + second;
    LeadsOn(s0, first, slow, second, decided);
    after, t := ThenApproved(decided, s0.nextId);
  }

  // --- The HITL lock of a job ---------------------------------------------------------------------------------

  /** A step makes the job approved only by hand or by a save of a delivery without the flag. */
  lemma ApprovalsAreUnflagged(s: System, step: Step)
    requires FlagRespected(s) && Enabled(s, step)
    requires Apply(s, step).status == JobApproved && s.status != JobApproved
    ensures step == Override(true) || (step.Save? && !s.runs[step.id].msg.wasHitl)
  {
  }

  lemma StockNeedsUnflagged(s: System, step: Step)
    requires FlagRespected(s) && Enabled(s, step)
    requires Apply(s, step).item == InStock && s.item != InStock
    ensures step == Override(true) || (step.Act? && !s.runs[step.id].msg.wasHitl)
  {
  }

  /** Neither people nor the sweeper take part. */
  ghost predicate Unattended(steps: seq<Step>) {
    forall k :: 0 <= k < |steps| ==> !ByHuman(steps[k]) && !steps[k].Sweep?
  }

  ghost predicate MessagesFlagged(s: System) {
    forall m :: m in s.queue || m in s.unacked ==> m.wasHitl
  }

  ghost predicate RunsFlagged(s: System) {
    forall id :: id in s.runs ==> s.runs[id].msg.wasHitl
  }

  /** A message without the flag waits, is being delivered, or is with the broker unacknowledged. */
  ghost predicate PlainOutstanding(s: System) {
    !(MessagesFlagged(s) && RunsFlagged(s))
  }

  lemma MessagesFlaggedKept(s: System, step: Step)
    requires MessagesFlagged(s) && RunsFlagged(s) && Enabled(s, step) && !ByHuman(step) && !step.Sweep?
    ensures MessagesFlagged(Apply(s, step))
  {
    forall m | m in Apply(s, step).queue || m in Apply(s, step).unacked
      ensures m.wasHitl
    {
      NoPlainMessageAppears(s, step, m);
    }
  }

  lemma NoPlainMessageAppears(s: System, step: Step, m: Msg)
    requires MessagesFlagged(s) && RunsFlagged(s) && Enabled(s, step) && !ByHuman(step) && !step.Sweep?
    requires m in Apply(s, step).queue || m in Apply(s, step).unacked
    ensures m.wasHitl
  {
  }

  lemma RunsFlaggedKept(s: System, step: Step)
    requires MessagesFlagged(s) && RunsFlagged(s) && Enabled(s, step)
    ensures RunsFlagged(Apply(s, step))
  {
    forall id | id in Apply(s, step).runs
      ensures Apply(s, step).runs[id].msg.wasHitl
    {
      RunsOrigin(s, step, id);
    }
  }

  lemma {:induction false} NoPlainNoApproval(s: System, steps: seq<Step>, t: System)
    requires FlagRespected(s) && MessagesFlagged(s) && RunsFlagged(s) && s.status != JobApproved
    requires Leads(s, steps, t) && Unattended(steps)
    ensures t.status != JobApproved
    decreases |steps|
  {
    if steps == [] {
    } else {
      var u := Apply(s, steps[0]);
      FlagRespectedKept(s, steps[0]);
      MessagesFlaggedKept(s, steps[0]);
      RunsFlaggedKept(s, steps[0]);
      if u.status == JobApproved {
        ApprovalsAreUnflagged(s, steps[0]);
      }
      assert forall k :: 0 <= k < |steps[1..]| ==> steps[1..][k] == steps[k + 1];
      NoPlainNoApproval(u, steps[1..], t);
    }
  }

  /** Once no delivery is live, time passes freely and any waiting message can be delivered. */
  lemma QueuedMessageCanRun(s: System, m: Msg, answer: WorkerDecision) returns (steps: seq<Step>, t: System)
    requires s.runs == map[] && m in s.queue && !Terminal(s.status)
    ensures Leads(s, steps, t) && Calm(steps) && Unattended(steps) && t.status == StatusFor(Locked(m.wasHitl, answer))
  {
    var wait := if s.lock.Some? then s.lock.value.expires else 0;
    steps := [Tick(wait)] + DeliverySteps(s.nextId, m, answer, true);
    t := Delivered(Waited(s, wait), m, answer, true);
    LaterLeads(s, wait, m, answer, true);
    DeliveredStatus(Waited(s, wait), m, answer, true);
    DeliveryIsCalm(s.nextId, m, answer, true, wait);
    DeliveryIsUnattended(s.nextId, m, answer, true, wait);
  }

  lemma DeliveryIsUnattended(id: nat, m: Msg, answer: WorkerDecision, tracked: bool, seconds: nat)
    ensures Unattended([Tick(seconds)] + DeliverySteps(id, m, answer, tracked))
  {
  }

  lemma DeliveredStatus(s: System, m: Msg, answer: WorkerDecision, tracked: bool)
    ensures Delivered(s, m, answer, tracked).status == StatusFor(Locked(m.wasHitl, answer))
  {
  }

  ghost predicate CanBeApprovedUnseen(s: System) {
    exists steps, t :: Leads(s, steps, t) && Unattended(steps) && t.status == JobApproved
  }

  /** A delivery that crashes leaves its message with the broker. */
  lemma CrashKeepsPlain(s: System, id: nat)
    requires PlainOutstanding(s) && id in s.runs
    ensures PlainOutstanding(Apply(s, Crash(id)))
  {
    var t := Apply(s, Crash(id));
    assert s.runs[id].msg in t.unacked;
    assert forall m :: m in s.unacked ==> m in t.unacked;
    assert forall k :: k in s.runs && k != id ==> k in t.runs && t.runs[k] == s.runs[k];
  }

  lemma OneCrashes(s: System, id: nat)
    requires Safe(s) && PlainOutstanding(s) && id in s.runs
    ensures var u := Apply(s, Crash(id)); Safe(u) && PlainOutstanding(u) && u.runs == s.runs - {id} && u.status == s.status
  {
    SafeKept(s, Crash(id));
    CrashKeepsPlain(s, id);
  }

  /** The steps end all live deliveries and keep the plain message and the status. */
  ghost predicate Emptied(s: System, steps: seq<Step>, t: System) {
    && Leads(s, steps, t) && Unattended(steps)
    && Safe(t) && PlainOutstanding(t) && t.runs == map[] && t.status == s.status
  }

  lemma EmptiedBefore(s: System, id: nat, u: System, rest: seq<Step>, t: System)
    requires id in s.runs && u == Apply(s, Crash(id)) && Emptied(u, rest, t)
    ensures Emptied(s, [Crash(id)] + rest, t)
  {
    FirstStep(s, Crash(id), rest, t);
  }

  /** Every live delivery may crash. */
  lemma {:induction false} AllCrash(s: System, below: nat) returns (steps: seq<Step>, t: System)
    requires Safe(s) && PlainOutstanding(s) && forall id :: id in s.runs ==> id < below
    ensures Emptied(s, steps, t)
    decreases below
  {
    if below == 0 {
      steps, t := [], s;
    } else if below - 1 in s.runs {
      var u, rest := Apply(s, Crash(below - 1)), [];
      OneCrashes(s, below - 1);
      rest, t := AllCrash(u, below - 1);
      steps := [Crash(below - 1)] + rest;
      EmptiedBefore(s, below - 1, u, rest, t);
    } else {
      steps, t := AllCrash(s, below - 1);
    }
  }

  /** An unacknowledged message comes back first. */
  lemma UnackedMessageCanRun(s: System, m: Msg, answer: WorkerDecision) returns (steps: seq<Step>, t: System)
    requires s.runs == map[] && m in s.unacked && !Terminal(s.status)
    ensures Leads(s, steps, t) && Unattended(steps) && t.status == StatusFor(Locked(m.wasHitl, answer))
  {
    var u, rest := Apply(s, Restore(m)), [];
    rest, t := QueuedMessageCanRun(u, m, answer);
    steps := [Restore(m)] + rest;
    FirstStep(s, Restore(m), rest, t);
  }

  /** With no live delivery, a plain message waits or comes back, and is delivered. */
  lemma PlainMessageCanRun(s: System) returns (steps: seq<Step>, t: System)
    requires s.runs == map[] && PlainOutstanding(s) && !Terminal(s.status)
    ensures Leads(s, steps, t) && Unattended(steps) && t.status == JobApproved
  {
    var m :| (m in s.queue || m in s.unacked) && !m.wasHitl;
    if m in s.queue {
      steps, t := QueuedMessageCanRun(s, m, APPROVE);
    } else {
      steps, t := UnackedMessageCanRun(s, m, APPROVE);
    }
  }

  lemma PlainMessageApproves(s: System)
    requires Safe(s) && PlainOutstanding(s) && !Terminal(s.status)
    ensures CanBeApprovedUnseen(s)
  {
    var crashes, u := AllCrash(s, s.nextId);
    var steps, t := PlainMessageCanRun(u);
    LeadsOn(s, crashes, u, steps, t);
    assert Unattended(crashes + steps);
  }

  /** A job without a result, one that waits for a human included, is safe from automatic approval exactly when no message
      without the flag waits, is being delivered, or is unacknowledged. */
  lemma SafeIffNoPlainMessage(s: System)
    requires Safe(s) && !Terminal(s.status)
    ensures CanBeApprovedUnseen(s) <==> PlainOutstanding(s)
  {
    if PlainOutstanding(s) {
      PlainMessageApproves(s);
    } else {
      forall steps, t | Leads(s, steps, t) && Unattended(steps)
        ensures t.status != JobApproved
      {
        NoPlainNoApproval(s, steps, t);
      }
    }
  }

  /** Both cases occur. A job that is delivered at once and left to a human is safe; one that waited for the sweeper first
      has a second message, which inspects the waiting job again and may approve it. */
  lemma FirstEscalationIsSafe(s0: System, tracked: bool)
    requires Initial(s0)
    ensures var t := Delivered(s0, Msg(false, 0), HITL, tracked);
            && Leads(s0, DeliverySteps(s0.nextId, Msg(false, 0), HITL, tracked), t)
            && t.status == HitlRequired && !CanBeApprovedUnseen(t)
  {
    var m := Msg(false, 0);
    var t := Delivered(s0, m, HITL, tracked);
    DeliveryLeads(s0, m, HITL, tracked);
    SafeAlways(s0, DeliverySteps(s0.nextId, m, HITL, tracked), t);
    assert t.runs == map[] && t.queue == multiset{} && t.unacked == multiset{};
    SafeIffNoPlainMessage(t);
  }

  lemma SweptEscalationIsApproved(s0: System)
      returns (before: seq<Step>, waiting: System, after: seq<Step>, t: System)
    requires Initial(s0)
    ensures Leads(s0, before, waiting) && waiting.status == HitlRequired && Calm(before)
    ensures waiting == Delivered(Swept(s0, PENDING_CUTOFF + 1), Msg(false, 0), HITL, true)
    ensures Leads(waiting, after, t) && t.status == JobApproved && Calm(after) && Unattended(after)
  {
    var m, swept := Msg(false, 0), Swept(s0, PENDING_CUTOFF + 1);
    waiting := Delivered(swept, m, HITL, true);
    before := [Tick(PENDING_CUTOFF + 1), Sweep] + DeliverySteps(s0.nextId, m, HITL, true);
    SweptLeads(s0, PENDING_CUTOFF + 1);
    DeliveryLeads(swept, m, HITL, true);
    LeadsOn(s0, [Tick(PENDING_CUTOFF + 1), Sweep], swept, DeliverySteps(s0.nextId, m, HITL, true), waiting);
    DeliveryIsCalm(s0.nextId, m, HITL, true, PENDING_CUTOFF + 1);
    assert waiting.runs == map[] && m in waiting.queue;
    after, t := QueuedMessageCanRun(waiting, m, APPROVE);
  }

  /** A plain message of an unfinished job that is being delivered. */
  lemma DeliveryHoldsPlain(s: System, m: Msg)
    requires Safe(s) && m in s.queue && !LockLive(s) && !m.wasHitl && !Terminal(s.status)
    ensures CanBeApprovedUnseen(Apply(s, Start(m)))
  {
    SafeKept(s, Start(m));
    assert Apply(s, Start(m)).runs[s.nextId].msg == m;
    PlainMessageApproves(Apply(s, Start(m)));
  }

  /** The message need not be with the broker: it is as dangerous once its delivery has begun. */
  lemma WaitingWhileDelivered(s0: System) returns (steps: seq<Step>, s: System)
    requires Initial(s0)
    ensures Leads(s0, steps, s) && Calm(steps)
    ensures s.status == HitlRequired && s.queue == multiset{} && s.unacked == multiset{} && CanBeApprovedUnseen(s)
  {
    var m := Msg(false, 0);
    var before, waiting, after, t := SweptEscalationIsApproved(s0);
    s := Apply(waiting, Start(m));
    steps := before + [Start(m)];
    OneStep(waiting, Start(m), s);
    LeadsOn(s0, before, waiting, [Start(m)], s);
    SafeAlways(s0, before, waiting);
    DeliveryHoldsPlain(waiting, m);
  }

  /** A re-inspection carries the flag exactly if the job waited for a human or had a result. */
  lemma ReinspectionFlag(s: System)
    ensures var flag := s.status == HitlRequired || s.status == JobApproved || s.status == JobRejected;
            Apply(s, Reinspect).queue == s.queue + multiset{Msg(flag, 0)} && Apply(s, Reinspect).status == Pending
  {
  }

  /** People keep status and item together: an override puts both where it says, and a recalled item waits for a human
      with its job. */
  lemma PeopleKeepItemAndStatus(s: System, approve: bool)
    ensures var t := Apply(s, Override(approve));
            if approve then t.status == JobApproved && t.item == InStock else t.status == JobRejected && t.item == ItemRejected
    ensures var t := Apply(s, Recall);
            t.status == HitlRequired && (if s.item == NoItem then t.item == NoItem else t.item == ItemHitl)
  {
  }

  /** A re-inspection leaves the creation time alone, so for a job older than two minutes the next sweep sends a plain
      message beside the flagged one. */
  lemma ReinspectionIsSweptPlain(s: System)
    requires s.status == HitlRequired || s.status == JobApproved || s.status == JobRejected
    requires s.createdAt + 120 < s.now
    ensures Apply(Apply(s, Reinspect), Sweep).queue == s.queue + multiset{Msg(true, 0)} + multiset{Msg(false, 0)}
  {
  }

  /** And that message may run first and approve what only a human was to approve. */
  lemma ReinspectedJobCanBeApproved(s: System)
    requires Safe(s) && s.createdAt + 120 < s.now
    requires s.status == HitlRequired || s.status == JobApproved || s.status == JobRejected
    ensures CanBeApprovedUnseen(Apply(Apply(s, Reinspect), Sweep))
  {
    var u := Apply(s, Reinspect);
    SafeKept(s, Reinspect);
    SafeKept(u, Sweep);
    assert Msg(false, 0) in Apply(u, Sweep).queue;
    PlainMessageApproves(Apply(u, Sweep));
  }

  /** The retry of the inbound screen needs no sweep: it sends a plain message for any job, a waiting or a finished one
      included. */
  lemma InboundRetryUnlocks(s: System)
    requires Safe(s)
    ensures CanBeApprovedUnseen(Apply(s, InboundRetry))
  {
    SafeKept(s, InboundRetry);
    assert Msg(false, 0) in Apply(s, InboundRetry).queue;
    PlainMessageApproves(Apply(s, InboundRetry));
  }
}
