/** The inspection state as the graph keeps it for one job: one object that every node updates in place, and that the
    next call for the job finds as the last one left it. */
module InspectionRun {
  import opened Options
  import opened Decisions
  import opened Defects
  import opened Vision
  import opened Inspection
  import Scoring
  import ScoringLaws
  import VisionAgent

  /** The score, the unverified mark and the charges of a list of defects. */
  method ScoreBook(defects: seq<Defect>, workbook: bool) returns (points: int, unverified: bool, charged: seq<Defect>)
    ensures points == Scoring.Score(defects, workbook) && charged == Scoring.Charged(defects, workbook)
    ensures unverified <==> defects != [] && points == 100
  {
    var a;
    a, charged := Scoring.ScoreDefects(defects, workbook);
    ScoringLaws.UnverifiedIsDismissedPerfect(defects, workbook, a);
    points, unverified := a.score, a.unverified;
  }

  lemma PolicyOnReading(cfg: Config, s: State, points: int, unverified: bool, charged: seq<Defect>)
    requires !s.visionFailed && points == Scoring.Score(s.defects, cfg.workbook) && charged == Scoring.Charged(s.defects, cfg.workbook)
    requires unverified <==> s.defects != [] && points == 100
    ensures AfterPolicy(cfg, s) == s.(executed := s.executed + [PolicyAgent], defects := charged, score := Some(points),
                                      unverified := unverified, reason := None)
  {
  }

  /** What the vision agent writes into the state: nothing was read, or an outcome. */
  function Seen(s: State, outcome: Option<Outcome>): State {
    var t := s.(executed := s.executed + [VisionAgentNode]);
    match outcome
    case None => t.(isMint := None, defects := [], visionFailed := true)
    case Some(out) => t.(isMint := Some(out.isMint), defects := out.defects, invalid := out.invalid)
  }

  method See(cfg: Config, candidates: seq<Candidate>, defects: seq<Defect>, o: PassOracle, ghost s: State)
    returns (outcome: Option<Outcome>)
    requires candidates == s.candidates && defects == s.defects
    ensures AfterVision(cfg, s, o) == Seen(s, outcome)
  {
    outcome := VisionAgent.Look(cfg, candidates, defects, o.vlm, o.verdicts);
  }

  class InspectionGraph {
    var cfg: Config
    var candidates: seq<Candidate>
    var isMint: Option<bool>
    var visionFailed: bool
    var defects: seq<Defect>
    var invalid: set<int>
    var score: Option<int>
    var unverified: bool
    var reason: Option<Reason>
    var revision: nat
    var decision: Option<Decision>
    var autoRefund: Option<bool>
    var executed: seq<Agent>

    function View(): State
      reads this
    {
      State(candidates, isMint, visionFailed, defects, invalid, score, unverified, reason, revision, decision, autoRefund, executed)
    }

    /** A thread without a checkpoint. */
    constructor (cfg: Config)
      ensures this.cfg == cfg && View() == INITIAL
    {
      this.cfg := cfg;
      candidates, isMint, visionFailed, defects, invalid := [], None, false, [], {};
      score, unverified, reason, revision := None, false, None, 0;
      decision, autoRefund, executed := None, None, [];
    }

    /** The input of a call is written over the checkpoint. */
    method TakeInput(input: Config)
      modifies this
      ensures cfg == input && View() == Resumed(old(View()))
    {
      cfg := input;
      isMint, defects, score, reason, revision := None, [], None, None, 0;
    }

    method DetectorNode(found: seq<Candidate>)
      modifies this
      ensures cfg == old(cfg) && View() == old(View()).(candidates := found, executed := old(executed) + [DetectorAgent])
    {
      candidates := found;
      executed := executed + [DetectorAgent];
    }

    method VisionAgentStep(o: PassOracle)
      modifies this
      ensures cfg == old(cfg) && View() == AfterVision(cfg, old(View()), o)
    {
      var outcome := See(cfg, candidates, defects, o, View());
      if outcome.None? {
        isMint, defects, visionFailed := None, [], true;
      } else {
        isMint, defects, invalid := Some(outcome.value.isMint), outcome.value.defects, outcome.value.invalid;
      }
      executed := executed + [VisionAgentNode];
    }

    method PolicyAgentStep()
      modifies this
      ensures cfg == old(cfg) && View() == AfterPolicy(cfg, old(View()))
    {
      executed := executed + [PolicyAgent];
      if visionFailed {
        score := None;
        return;
      }
      var points, open, charged := ScoreBook(defects, cfg.workbook);
      PolicyOnReading(cfg, old(View()), points, open, charged);
      defects, score, unverified, reason := charged, Some(points), open, None;
    }

    method CriticAgentStep(answer: CriticAnswer)
      modifies this
      ensures cfg == old(cfg) && View() == AfterCritic(cfg, old(View()), answer)
    {
      executed := executed + [CriticAgent];
      if revision >= 2 {
        reason := Some(MaxRetriesHitl);
        return;
      }
      if score.Some? && 58 <= score.value <= 66 {
        reason := Some(BoundaryHitl);
        return;
      }
      if score.None? {
        reason, revision, visionFailed := Some(Reason.Reject), revision + 1, false;
        return;
      }
      var issues := StageA(defects, cfg.imageCount, score);
      if issues != [] {
        reason := Some(HumanRequired);
        return;
      }
      var verdict := NoAnswer;
      if cfg.llmAvailable && defects != [] {
        verdict := answer;
      }
      if verdict == Unsound {
        reason, revision, defects := Some(Reason.Reject), revision + 1, [];
        return;
      }
      reason := Some(Ok);
    }

    method SupervisorNode()
      modifies this
      ensures cfg == old(cfg) && View() == AfterSupervisor(cfg, old(View()))
    {
      executed := executed + [SupervisorAgent];
      var valid := if cfg.imageCount < |invalid| then 0 else cfg.imageCount - |invalid|;
      if cfg.imageCount > 0 && valid == 0 {
        decision, score, isMint, autoRefund, reason :=
          Some(EscalateHuman), None, Some(false), Some(false), Some(NoValidImageHitl);
      } else if reason == Some(MaxRetriesHitl) || reason == Some(BoundaryHitl) || reason == Some(HumanRequired) || revision >= 2 {
        decision := Some(EscalateHuman);
      } else if reason == Some(Reason.Reject) {
        decision := Some(RetryVision);
      } else {
        decision := Some(IssueReport);
      }
    }

    method ReportAgentStep()
      modifies this
      ensures cfg == old(cfg) && View() == AfterReport(old(View()))
    {
      var reported := score.GetOr(100);
      score, autoRefund := Some(reported), Some(isMint == Some(true) && reported >= 95);
      executed := executed + [ReportAgent];
    }

    method HumanNodeStep()
      modifies this
      ensures cfg == old(cfg) && View() == AfterHuman(old(View()))
    {
      reason := Some(AwaitingHumanReview);
    }

    /** Vision, policy, critic and supervisor in a row, then the supervisor's route. */
    method OnePass(o: PassOracle) returns (node: Node)
      modifies this
      ensures cfg == old(cfg) && View() == Pass(cfg, old(View()), o)
      ensures node == RouteFromSupervisor(View())
    {
      VisionAgentStep(o);
      PolicyAgentStep();
      CriticAgentStep(o.critic);
      SupervisorNode();
      node := RouteFromSupervisor(View());
    }

    /** The compiled graph: input, detector, then passes until the supervisor routes to an end. */
    method Invoke(input: Config, found: seq<Candidate>, oracle: nat -> PassOracle) returns (result: WorkerDecision)
      modifies this
      ensures cfg == input && View() == Run(Invocation(input, old(View()), found, oracle))
      ensures result == ConvertState(View())
    {
      ghost var v := Invocation(input, View(), found, oracle);
      TakeInput(input);
      DetectorNode(found);
      ghost var entry := View();
      assert entry == Begin(v);
      var node := OnePass(oracle(0));
      OnePassOfRun(cfg, entry, oracle, 0);
      var k := 1;
      while node == VisionNode
        invariant k > 0 && cfg == input && node == RouteFromSupervisor(View())
        invariant Ending(input, View(), oracle, k) == Run(v)
        invariant node == VisionNode ==> revision < 2
        decreases if node == VisionNode then 2 - revision else 0
      {
        entry := View();
        node := OnePass(oracle(k));
        OnePassOfRun(cfg, entry, oracle, k);
        k := k + 1;
      }
      if node == HumanNode {
        HumanNodeStep();
      } else {
        ReportAgentStep();
      }
      result := ConvertState(View());
    }
  }

  /** How a run goes on after a pass. */
  ghost function Ending(cfg: Config, t: State, oracle: nat -> PassOracle, next: nat): State {
    match RouteFromSupervisor(t)
    case VisionNode => RunFrom(cfg, t, oracle, next)
    case HumanNode => AfterHuman(t)
    case ReportNode => AfterReport(t)
  }

  lemma OnePassOfRun(cfg: Config, s: State, oracle: nat -> PassOracle, k: nat)
    ensures RunFrom(cfg, s, oracle, k) == Ending(cfg, Pass(cfg, s, oracle(k)), oracle, k + 1)
    ensures RouteFromSupervisor(Pass(cfg, s, oracle(k))) == VisionNode ==> Pass(cfg, s, oracle(k)).revision == s.revision + 1 < 2
  {
    ReadingKeepsCount(cfg, s, oracle(k));
    if RouteFromSupervisor(Pass(cfg, s, oracle(k))) == VisionNode {
      SentBack(cfg, Scored(cfg, s, oracle(k)), oracle(k).critic);
    }
  }
}
