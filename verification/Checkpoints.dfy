/**
 What a later call of the graph inherits from the checkpoint of its job: for each mark that
 outlives a run, exactly when the promise about it holds, with a run that breaks it otherwise.
 */
module Checkpoints {
  import opened Options
  import opened Decisions
  import opened Defects
  import opened Vision
  import opened VisionLaws
  import opened Inspection
  import opened InspectionLaws
  import opened StoredResults
  import opened UnreadBooks
  import opened ScoringLaws

  // --- A run whose readings all fail ------------------------------------------------------------

  const SILENT := PassOracle(Failure, [], NoAnswer)

  ghost function FailingCall(cfg: Config, before: State): Invocation {
    Invocation(cfg, before, [], k => SILENT)
  }

  /** It ends with a human, without a score, and with the unverified mark of the checkpoint. */
  lemma FailingRun(cfg: Config, before: State)
    requires Reads(cfg, [])
    ensures var v := FailingCall(cfg, before);
            && ConvertState(Run(v)) == HITL && Run(v).unverified == before.unverified
            && LastScored(v).score.None? && LastScored(v).invalid == before.invalid
  {
    var v := FailingCall(cfg, before);
    var s0 := Begin(v);
    UnscoredPass(cfg, s0, SILENT);
    DecidedKeeps(cfg, Scored(cfg, s0, SILENT), NoAnswer);
    if RouteFromSupervisor(FirstPass(v)) == VisionNode {
      RetryCanRead(cfg, s0, SILENT);
      UnscoredPass(cfg, FirstPass(v), SILENT);
    }
    EndOfRun(v);
    FinalState(v);
  }

  // --- A run that reports a defect without a box ----------------------------------------------------

  const BOXLESS := Reported("", 20, None, false, None, Some(0), None)
  const BOXLESS_ANSWER := PassOracle(Reading(false, [BOXLESS], [], []), [], NoAnswer)

  ghost function BoxlessCall(cfg: Config, before: State): Invocation {
    Invocation(cfg, before, [], k => BOXLESS_ANSWER)
  }

  predicate Boxless(ds: seq<Defect>) {
    |ds| == 1 && ds[0].bbox.None? && ds[0].dtype == ""
  }

  /** The vision step keeps such a list, whether it reads it or finds it. */
  lemma LookedBoxless(cfg: Config, before: seq<Defect>)
    requires Reads(cfg, []) && (before == [] || Boxless(before))
    ensures var out := Looked(cfg, [], before, BOXLESS_ANSWER.vlm, []);
            Boxless(out.defects) && out.invalid == {}
  {
    var taken := Taken(cfg, before, BOXLESS_ANSWER.vlm);
    if before == [] {
      assert InvalidShots(cfg, []) == {};
      assert FromReports([BOXLESS]) + [] == [FromReport(BOXLESS)];
    }
    assert Boxless(taken.defects) && taken.invalid == {};
    NothingDropped(taken.defects);
    ScreeningKeepsReports(cfg, [], [], taken.defects);
  }

  /** A defect without a box never passes Stage A. */
  lemma BoxlessIsNotClear(cfg: Config, s: State)
    requires Reads(cfg, []) && s.candidates == [] && (s.defects == [] || Boxless(s.defects))
    ensures var p := Scored(cfg, s, BOXLESS_ANSWER);
            && !ReadingFails(cfg, s, BOXLESS_ANSWER)
            && Boxless(p.defects) && p.invalid == {} && !Clear(cfg, p, NoAnswer) && !NothingReadable(cfg, p)
  {
    LookedBoxless(cfg, s.defects);
    var out := PassOutcome(cfg, s, BOXLESS_ANSWER);
    var p := Scored(cfg, s, BOXLESS_ANSWER);
    if Marked(cfg, s, BOXLESS_ANSWER) {
      UnscoredPass(cfg, s, BOXLESS_ANSWER);
    } else {
      ScoredPass(cfg, s, BOXLESS_ANSWER);
      ChargingKeepsReport(out.defects, cfg.workbook, 0);
    }
    assert p.defects[0] in p.defects;
  }

  /** It ends with a human, and nothing clears the refund flag of the checkpoint. */
  lemma BoxlessRun(cfg: Config, before: State)
    requires Reads(cfg, [])
    ensures var v := BoxlessCall(cfg, before);
            ConvertState(Run(v)) == HITL && Run(v).autoRefund == before.autoRefund
  {
    var v := BoxlessCall(cfg, before);
    BoxlessIsNotClear(cfg, Begin(v));
    if RouteFromSupervisor(FirstPass(v)) == VisionNode {
      BoxlessIsSentOn(cfg, Begin(v));
      BoxlessIsNotClear(cfg, FirstPass(v));
    }
    EndOfRun(v);
    FinalState(v);
  }

  lemma BoxlessIsSentOn(cfg: Config, s: State)
    requires Reads(cfg, []) && s.candidates == [] && s.defects == []
    ensures var t := Pass(cfg, s, BOXLESS_ANSWER); t.candidates == [] && (t.defects == [] || Boxless(t.defects))
  {
    BoxlessIsNotClear(cfg, s);
    PassKeepsCandidates(cfg, s, BOXLESS_ANSWER);
  }

  // --- Exactly when the promises hold ---------------------------------------------------------------

  /** Only approvals of mint books are stored with a refund, whatever the detector finds and the models answer. */
  ghost predicate RefundsAreApprovals(cfg: Config, before: State) {
    forall candidates: seq<Candidate>, oracle: nat -> PassOracle ::
      var f := Run(Invocation(cfg, before, candidates, oracle));
      (forall c :: c in candidates ==> 0 <= c.imageIndex < 3 && c.imageIndex < cfg.imageCount) && f.autoRefund == Some(true) ==>
        ConvertState(f) == APPROVE && f.isMint == Some(true) && f.score.Some? && f.score.value >= 95
  }

  lemma StaleRefund(v: Invocation)
    requires forall c :: c in v.candidates ==> 0 <= c.imageIndex < 3 && c.imageIndex < v.cfg.imageCount
    requires ConvertState(Run(v)) == HITL && Run(v).autoRefund == Some(true)
    ensures !RefundsAreApprovals(v.cfg, v.before)
  {
    assert v == Invocation(v.cfg, v.before, v.candidates, v.oracle);
  }

  lemma RefundsAreApprovalsIff(cfg: Config, before: State)
    ensures RefundsAreApprovals(cfg, before) <==> before.autoRefund != Some(true) || !Reads(cfg, [])
  {
    if before.autoRefund == Some(true) && Reads(cfg, []) {
      BoxlessRun(cfg, before);
      StaleRefund(BoxlessCall(cfg, before));
    } else {
      forall candidates: seq<Candidate>, oracle: nat -> PassOracle | forall c :: c in candidates ==> 0 <= c.imageIndex < 3 && c.imageIndex < cfg.imageCount
        ensures var f := Run(Invocation(cfg, before, candidates, oracle));
                f.autoRefund == Some(true) ==> ConvertState(f) == APPROVE && f.isMint == Some(true) && f.score.Some? && f.score.value >= 95
      {
        RefundsOfRun(Invocation(cfg, before, candidates, oracle));
        if !Reads(cfg, []) {
          UnreadBookIsApproved(Invocation(cfg, before, candidates, oracle));
        }
      }
    }
  }

  /** A stored unverified mark says that this run reported defects and took nothing off. */
  ghost predicate UnverifiedIsThisRun(cfg: Config, before: State) {
    forall candidates, oracle: nat -> PassOracle ::
      var v := Invocation(cfg, before, candidates, oracle);
      Run(v).unverified ==> LastScored(v).defects != [] && LastScored(v).score == Some(100)
  }

  lemma UnverifiedIsThisRunIff(cfg: Config, before: State)
    ensures UnverifiedIsThisRun(cfg, before) <==> !before.unverified || !Reads(cfg, [])
  {
    if before.unverified && Reads(cfg, []) {
      var v := FailingCall(cfg, before);
      FailingRun(cfg, before);
      assert v == Invocation(cfg, before, v.candidates, v.oracle);
    } else {
      forall candidates, oracle: nat -> PassOracle
        ensures var v := Invocation(cfg, before, candidates, oracle);
                Run(v).unverified ==> LastScored(v).defects != [] && LastScored(v).score == Some(100)
      {
        UnverifiedOfRun(Invocation(cfg, before, candidates, oracle));
        if !Reads(cfg, []) {
          UnreadBook(Invocation(cfg, before, candidates, oracle));
        }
      }
    }
  }

  /** Every stored dismissal is witnessed. */
  ghost predicate DismissalsHoldUp(cfg: Config, before: State) {
    forall candidates, oracle: nat -> PassOracle, d ::
      d in Run(Invocation(cfg, before, candidates, oracle)).defects && d.suspect ==> Witnessed(cfg, d)
  }

  const SPOT_REPORT := Reported("", 20, None, false, Some(SPOT), Some(0), None)

  /** The same spot is rejected by the first check and confirmed by the second. */
  function Wavering(r: Reported, k: nat): PassOracle {
    PassOracle(Reading(false, [r], [], []), [if k == 0 then No else Yes], Sound)
  }

  ghost function WaveringCall(cfg: Config, before: State): Invocation {
    Invocation(cfg, before, [], (k: nat) => Wavering(SPOT_REPORT, k))
  }

  function RejectedSpot(r: Reported): Defect {
    FromReport(r).(verify := Rejected, suspect := true)
  }

  /** A spot without hints goes to the check as it is. */
  lemma SpotIsChecked(cfg: Config, before: seq<Defect>, answer: VlmAnswer, d: Defect, verdict: Verdict)
    requires Reads(cfg, []) && (Reads(cfg, before) ==> answer.Reading?)
    requires Judged(cfg, [], Taken(cfg, before, answer)) == Outcome(false, [d], {})
    requires PlainDefects([d]) && d.source == NoSource && !d.ungrounded
    ensures Looked(cfg, [], before, answer, [verdict]) == Outcome(false, [Check(cfg, d, verdict)], {})
  {
    PlainUnmarked([d]);
    assert Checked(cfg, [d], [verdict]) == [Check(cfg, d, verdict)];
  }

  lemma SpotVerdict(cfg: Config, d: Defect)
    requires Reads(cfg, []) && d.bbox == Some(SPOT) && d.imageIndex == Some(0) && d.source == NoSource && !d.ungrounded
    ensures Check(cfg, d, No) == d.(verify := Rejected, suspect := true)
    ensures Check(cfg, d, Yes) == d.(verify := Confirmed)
  {
  }

  lemma FirstCheckRejects(cfg: Config, r: Reported)
    requires Reads(cfg, []) && PlainReport(r)
    ensures Looked(cfg, [], [], Wavering(r, 0).vlm, Wavering(r, 0).verdicts) == Outcome(false, [RejectedSpot(r)], {})
  {
    var d := FromReport(r);
    PlainTaken(cfg, [r], false);
    assert FromReports([r]) == [d];
    SpotIsChecked(cfg, [], Wavering(r, 0).vlm, d, No);
    SpotVerdict(cfg, d);
  }

  lemma SecondCheckConfirms(cfg: Config, r: Reported)
    requires Reads(cfg, []) && PlainReport(r)
    ensures Looked(cfg, [], [RejectedSpot(r)], Wavering(r, 1).vlm, Wavering(r, 1).verdicts)
              == Outcome(false, [RejectedSpot(r).(verify := Confirmed)], {})
  {
    var d := RejectedSpot(r);
    NothingDropped([d]);
    SpotIsChecked(cfg, [d], Wavering(r, 1).vlm, d, Yes);
    SpotVerdict(cfg, d);
  }

  /** With a leftover failure mark the defects of the first reading are checked a second time, and a spot that the second
      check confirms stays dismissed. */
  lemma WaveringRun(cfg: Config, before: State)
    requires Reads(cfg, []) && before.visionFailed
    ensures exists d :: d in Run(WaveringCall(cfg, before)).defects && d.suspect && d.verify == Confirmed
  {
    var v := WaveringCall(cfg, before);
    var s0 := Begin(v);
    FirstCheckRejects(cfg, SPOT_REPORT);
    UnscoredPass(cfg, s0, v.oracle(0));
    MarkedIsSentBack(cfg, s0, v.oracle(0));
    RetryCanRead(cfg, s0, v.oracle(0));
    PassKeepsCandidates(cfg, s0, v.oracle(0));
    WaveringEnds(v, SPOT_REPORT);
  }

  lemma WaveringEnds(v: Invocation, r: Reported)
    requires Reads(v.cfg, []) && PlainReport(r) && v.oracle(1) == Wavering(r, 1)
    requires var s := LastPass(v).entry;
             LastPass(v).k == 1 && s.defects == [RejectedSpot(r)] && s.candidates == [] && !s.visionFailed
    ensures exists d :: d in Run(v).defects && d.suspect && d.verify == Confirmed
  {
    var s, o := LastPass(v).entry, v.oracle(1);
    SecondCheckConfirms(v.cfg, r);
    ScoredPass(v.cfg, s, o);
    var out := PassOutcome(v.cfg, s, o).defects;
    ChargingKeepsReport(out, v.cfg.workbook, 0);
    PerfectScore(out, v.cfg.workbook);
    EndOfRun(v);
    ScoredDefectsStay(v.cfg, LastScored(v), o.critic);
    assert Run(v).defects == LastScored(v).defects;
    assert Run(v).defects[0] in Run(v).defects;
  }

  /** Only a verdict of unsoundness on consistent defects empties a scored list. */
  lemma ScoredDefectsStay(cfg: Config, p: State, answer: CriticAnswer)
    requires answer != Unsound
    ensures Decided(cfg, p, answer).defects == p.defects
  {
  }

  lemma DismissalsHoldUpIff(cfg: Config, before: State)
    ensures DismissalsHoldUp(cfg, before) <==> !before.visionFailed || !Reads(cfg, [])
  {
    if before.visionFailed && Reads(cfg, []) {
      var v := WaveringCall(cfg, before);
      WaveringRun(cfg, before);
      var d :| d in Run(v).defects && d.suspect && d.verify == Confirmed;
      assert v == Invocation(cfg, before, v.candidates, v.oracle);
      assert !Witnessed(cfg, d);
    } else {
      forall candidates, oracle: nat -> PassOracle, d | d in Run(Invocation(cfg, before, candidates, oracle)).defects && d.suspect
        ensures Witnessed(cfg, d)
      {
        if Reads(cfg, []) {
          StoredDismissalsAreWitnessed(Invocation(cfg, before, candidates, oracle));
        } else {
          UnreadIsUndismissed(Invocation(cfg, before, candidates, oracle));
        }
      }
    }
  }

  /** A call that is interrupted after its reading, before or after the policy agent, leaves its state behind: the next
      call of the job keeps the promise exactly if that reading did not fail, or nothing reads. */
  lemma InterruptedCallIff(v: Invocation, next: Config)
    requires !v.before.visionFailed
    ensures var failed := Reads(v.cfg, []) && v.oracle(0).vlm.Failure?;
            && (DismissalsHoldUp(next, AfterVision(v.cfg, Begin(v), v.oracle(0))) <==> !failed || !Reads(next, []))
            && (DismissalsHoldUp(next, Scored(v.cfg, Begin(v), v.oracle(0))) <==> !failed || !Reads(next, []))
  {
    DismissalsHoldUpIff(next, AfterVision(v.cfg, Begin(v), v.oracle(0)));
    DismissalsHoldUpIff(next, Scored(v.cfg, Begin(v), v.oracle(0)));
  }

  // --- A mint book inspected again -----------------------------------------------------------------------

  const MINT_ANSWER := PassOracle(Reading(true, [], [], []), [], NoAnswer)

  ghost function MintCall(cfg: Config): Invocation {
    Invocation(cfg, INITIAL, [], k => MINT_ANSWER)
  }

  lemma MintLook(cfg: Config)
    requires Reads(cfg, [])
    ensures Looked(cfg, [], [], MINT_ANSWER.vlm, []) == Outcome(true, [], {})
  {
    assert InvalidShots(cfg, []) == {};
    assert FromReports([]) + [] == [];
    assert Screened(cfg, [], [], []) == [];
  }

  lemma MintRun(cfg: Config)
    requires Reads(cfg, [])
    ensures var f := Run(MintCall(cfg));
            ConvertState(f) == APPROVE && f.score == Some(100) && f.autoRefund == Some(true) && f.invalid == {}
  {
    var v := MintCall(cfg);
    var p := Scored(cfg, Begin(v), MINT_ANSWER);
    MintLook(cfg);
    ScoredPass(cfg, Begin(v), MINT_ANSWER);
    PerfectScore([], cfg.workbook);
    assert Clear(cfg, p, NoAnswer);
    ClearRunEnds(v, p);
    FinalState(v);
  }

  /** A mint book is approved with a refund; inspected again by models that fail, it is stored for a human, with the refund
      flag still set and the trace of both runs. */
  lemma ReinspectedMintKeepsRefund(cfg: Config)
    requires Reads(cfg, [])
    ensures var first := Run(MintCall(cfg));
            var second := Run(FailingCall(cfg, first));
            && ConvertState(first) == APPROVE && first.autoRefund == Some(true)
            && ConvertState(second) == HITL && second.autoRefund == Some(true) && second.score == None
            && first.executed < second.executed
  {
    var first := Run(MintCall(cfg));
    var v := FailingCall(cfg, first);
    MintRun(cfg);
    FailingRun(cfg, first);
    FinalState(v);
    TraceOfRun(v);
  }
}
