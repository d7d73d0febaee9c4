/**
 The inspection graph (app/ai/supervisor.py, app/ai/agents/critic.py,
 app/ai/agents/report.py, app/ai/langgraph_wrapper.py): five agents, one supervisor, and
 the answers of the models as an arbitrary oracle.
 */
module Inspection {
  import opened Options
  import opened Defects
  import opened UbciMatrix
  import opened Vision
  import opened Decisions
  import Scoring

  // --- The shared state -----------------------------------------------------------------------

  datatype Reason = Ok | Reject | MaxRetriesHitl | BoundaryHitl | HumanRequired | AwaitingHumanReview | NoValidImageHitl

  datatype Decision = RetryVision | EscalateHuman | IssueReport

  datatype Agent = DetectorAgent | VisionAgentNode | PolicyAgent | CriticAgent | SupervisorAgent | ReportAgent

  datatype Node = VisionNode | HumanNode | ReportNode

  /** The entries of WMSInspectionState that decide anything. */
  datatype State = State(
    candidates: seq<Candidate>,
    isMint: Option<bool>,
    visionFailed: bool,
    defects: seq<Defect>,
    invalid: set<int>,
    score: Option<int>,
    unverified: bool,
    reason: Option<Reason>,
    revision: nat,
    decision: Option<Decision>,
    autoRefund: Option<bool>,
    executed: seq<Agent>)

  const INITIAL := State([], None, false, [], {}, None, false, None, 0, None, None, [])

  /** Stage B of the critic: no answer (model missing or failed) or a verdict on the reading. */
  datatype CriticAnswer = NoAnswer | Sound | Unsound

  /** The answers that the models give in one pass. */
  datatype PassOracle = PassOracle(vlm: VlmAnswer, verdicts: seq<Verdict>, critic: CriticAnswer)

  // --- Vision and policy ------------------------------------------------------------------------

  ghost function AfterVision(cfg: Config, s: State, o: PassOracle): State {
    var t := s.(executed := s.executed + [VisionAgentNode]);
    if Reads(cfg, s.defects) && o.vlm.Failure? then t.(isMint := None, defects := [], visionFailed := true)
    else
      var out := Looked(cfg, s.candidates, s.defects, o.vlm, o.verdicts);
      t.(isMint := Some(out.isMint), defects := out.defects, invalid := out.invalid)
  }

  /** A failed reading gets no score; otherwise the matrix decides. */
  ghost function AfterPolicy(cfg: Config, s: State): State {
    var t := s.(executed := s.executed + [PolicyAgent]);
    if s.visionFailed then t.(score := None)
    else
      var score := Scoring.Score(s.defects, cfg.workbook);
      t.(defects := Scoring.Charged(s.defects, cfg.workbook), score := Some(score),
         unverified := s.defects != [] && score == 100, reason := None)
  }

  // --- Critic ---------------------------------------------------------------------------------------

  datatype Issue =
    | MissingBox(index: nat) | ShotOutOfRange(index: nat) | NoDeduction | UnexplainedDeduction
    | CopiedConfidence | InventedBoxes

  predicate OutOfRange(d: Defect, imageCount: nat) {
    imageCount > 0 && d.imageIndex.Some? && !(0 <= d.imageIndex.value < imageCount)
  }

  predicate AnyCopied(ds: seq<Defect>) {
    exists d :: d in ds && d.copied
  }

  predicate AnyUngrounded(ds: seq<Defect>) {
    exists d :: d in ds && d.ungrounded
  }

  /** The facts that Stage A checks against each other. */
  predicate Consistent(ds: seq<Defect>, imageCount: nat, score: Option<int>) {
    && (forall d :: d in ds ==> d.bbox.Some? && !OutOfRange(d, imageCount))
    && (ds != [] ==> score != Some(100))
    && (ds == [] && score.Some? ==> score.value >= 100)
    && !AnyCopied(ds) && !AnyUngrounded(ds)
  }

  /** critic_stage_a_integrity_check: one issue per broken fact, the defects first. */
  method StageA(defects: seq<Defect>, imageCount: nat, score: Option<int>) returns (issues: seq<Issue>)
    ensures issues == [] <==> Consistent(defects, imageCount, score)
    ensures forall i: nat :: MissingBox(i) in issues <==> i < |defects| && defects[i].bbox.None?
    ensures forall i: nat :: ShotOutOfRange(i) in issues <==> i < |defects| && OutOfRange(defects[i], imageCount)
    ensures NoDeduction in issues <==> defects != [] && score == Some(100)
    ensures UnexplainedDeduction in issues <==> defects == [] && score.Some? && score.value < 100
    ensures CopiedConfidence in issues <==> AnyCopied(defects)
    ensures InventedBoxes in issues <==> AnyUngrounded(defects)
  {
    issues := [];
    for i := 0 to |defects|
      invariant forall j: nat :: MissingBox(j) in issues <==> j < i && defects[j].bbox.None?
      invariant forall j: nat :: ShotOutOfRange(j) in issues <==> j < i && OutOfRange(defects[j], imageCount)
      invariant forall x :: x in issues ==> x.MissingBox? || x.ShotOutOfRange?
    {
      var d := defects[i];
      if d.bbox.None? {
        issues := issues + [MissingBox(i)];
      }
      if imageCount > 0 && d.imageIndex.Some? && !(0 <= d.imageIndex.value < imageCount) {
        issues := issues + [ShotOutOfRange(i)];
      }
    }
    ghost var perDefect := issues;
    if defects != [] && score == Some(100) {
      issues := issues + [NoDeduction];
    }
    if defects == [] && score.Some? && score.value < 100 {
      issues := issues + [UnexplainedDeduction];
    }
    if AnyCopied(defects) {
      issues := issues + [CopiedConfidence];
    }
    if AnyUngrounded(defects) {
      issues := issues + [InventedBoxes];
    }
    NoIssueMeansConsistent(defects, imageCount, score, issues);
  }

  lemma NoIssueMeansConsistent(defects: seq<Defect>, imageCount: nat, score: Option<int>, issues: seq<Issue>)
    requires forall x :: x in issues ==> x.MissingBox? || x.ShotOutOfRange? || x in [NoDeduction, UnexplainedDeduction, CopiedConfidence, InventedBoxes]
    requires forall i: nat :: MissingBox(i) in issues <==> i < |defects| && defects[i].bbox.None?
    requires forall i: nat :: ShotOutOfRange(i) in issues <==> i < |defects| && OutOfRange(defects[i], imageCount)
    requires NoDeduction in issues <==> defects != [] && score == Some(100)
    requires UnexplainedDeduction in issues <==> defects == [] && score.Some? && score.value < 100
    requires CopiedConfidence in issues <==> AnyCopied(defects)
    requires InventedBoxes in issues <==> AnyUngrounded(defects)
    ensures issues == [] <==> Consistent(defects, imageCount, score)
  {
    assert issues != [] ==> issues[0] in issues;
    if Consistent(defects, imageCount, score) {
      forall i | 0 <= i < |defects|
        ensures defects[i].bbox.Some? && !OutOfRange(defects[i], imageCount)
      {
        assert defects[i] in defects;
      }
      forall x | x in issues
        ensures false
      {
        match x
        case MissingBox(i) =>
        case ShotOutOfRange(i) =>
        case _ =>
      }
    }
    if issues == [] {
      forall d | d in defects
        ensures d.bbox.Some? && !OutOfRange(d, imageCount)
      {
        var i :| 0 <= i < |defects| && defects[i] == d;
        assert MissingBox(i) !in issues && ShotOutOfRange(i) !in issues;
      }
    }
  }

  predicate OnBoundary(score: Option<int>) {
    score.Some? && 58 <= score.value <= 66
  }

  /** The branch chain of critic_agent. */
  function AfterCritic(cfg: Config, s: State, answer: CriticAnswer): State {
    var t := s.(executed := s.executed + [CriticAgent]);
    if s.revision >= 2 then t.(reason := Some(MaxRetriesHitl))
    else if OnBoundary(s.score) then t.(reason := Some(BoundaryHitl))
    else if s.score.None? then
      t.(reason := Some(Reason.Reject), revision := s.revision + 1, visionFailed := false)
    else if !Consistent(s.defects, cfg.imageCount, s.score) then t.(reason := Some(HumanRequired))
    else if cfg.llmAvailable && s.defects != [] && answer == Unsound then
      t.(reason := Some(Reason.Reject), revision := s.revision + 1, defects := [])
    else t.(reason := Some(Ok))
  }

  // --- Supervisor -------------------------------------------------------------------------------------

  /** No shot of the batch could be read. */
  predicate NothingReadable(cfg: Config, s: State) {
    cfg.imageCount > 0 && cfg.imageCount <= |s.invalid|
  }

  /** supervisor_node: the coverage gate first, then the critic's report. */
  function AfterSupervisor(cfg: Config, s: State): State {
    var t := s.(executed := s.executed + [SupervisorAgent]);
    if NothingReadable(cfg, s) then
      t.(decision := Some(EscalateHuman), score := None, isMint := Some(false), autoRefund := Some(false),
         reason := Some(NoValidImageHitl))
    else if s.reason in {Some(MaxRetriesHitl), Some(BoundaryHitl), Some(HumanRequired)} || s.revision >= 2 then
      t.(decision := Some(EscalateHuman))
    else if s.reason == Some(Reason.Reject) then t.(decision := Some(RetryVision))
    else t.(decision := Some(IssueReport))
  }

  function RouteFromSupervisor(s: State): Node {
    match s.decision
    case Some(RetryVision) => VisionNode
    case Some(EscalateHuman) => HumanNode
    case _ => ReportNode
  }

  // --- Ends ---------------------------------------------------------------------------------------------

  /** report_agent: a missing score would be reported as 100. */
  function AfterReport(s: State): State {
    var score := s.score.GetOr(100);
    s.(score := Some(score), autoRefund := Some(s.isMint == Some(true) && score >= 95),
       executed := s.executed + [ReportAgent])
  }

  function AfterHuman(s: State): State {
    s.(reason := Some(AwaitingHumanReview))
  }

  /** convert_state_to_decision. */
  function ConvertState(s: State): WorkerDecision {
    if s.decision == Some(EscalateHuman) || s.reason == Some(AwaitingHumanReview) then HITL
    else if s.isMint == Some(true) then APPROVE
    else if s.reason == Some(Ok) && s.score.Some? && s.score.value >= 70 then APPROVE
    else REJECT
  }

  // --- Runs ----------------------------------------------------------------------------------------------

  /** The reading and its score. */
  ghost function Scored(cfg: Config, s: State, o: PassOracle): State {
    AfterPolicy(cfg, AfterVision(cfg, s, o))
  }

  /** The critic's report and the supervisor's decision on it. */
  function Decided(cfg: Config, s: State, answer: CriticAnswer): State {
    AfterSupervisor(cfg, AfterCritic(cfg, s, answer))
  }

  ghost function Pass(cfg: Config, s: State, o: PassOracle): State {
    Decided(cfg, Scored(cfg, s, o), o.critic)
  }

  lemma ReadingKeepsCount(cfg: Config, s: State, o: PassOracle)
    ensures Scored(cfg, s, o).revision == s.revision
    ensures Scored(cfg, s, o).executed == s.executed + [VisionAgentNode, PolicyAgent]
  {
    assert s.executed + [VisionAgentNode] + [PolicyAgent] == s.executed + [VisionAgentNode, PolicyAgent];
  }

  /** Only the critic sends a book back, and it counts; a book that is sent back has no defects left and no failure mark. */
  lemma SentBack(cfg: Config, s: State, answer: CriticAnswer)
    requires RouteFromSupervisor(Decided(cfg, s, answer)) == VisionNode
    ensures Decided(cfg, s, answer).revision == s.revision + 1 < 2
    ensures s.score.None? || (Decided(cfg, s, answer).defects == [] && Consistent(s.defects, cfg.imageCount, s.score))
    ensures s.score.None? ==> !Decided(cfg, s, answer).visionFailed && Decided(cfg, s, answer).defects == s.defects
    ensures s.score.Some? ==> Decided(cfg, s, answer).visionFailed == s.visionFailed
  {
  }

  /** The graph from the vision node on; pass k is answered by oracle(k). */
  ghost function RunFrom(cfg: Config, s: State, oracle: nat -> PassOracle, k: nat): State
    decreases if s.revision < 2 then 2 - s.revision else 0
  {
    var t := Pass(cfg, s, oracle(k));
    match RouteFromSupervisor(t)
    case VisionNode =>
      ReadingKeepsCount(cfg, s, oracle(k));
      SentBack(cfg, Scored(cfg, s, oracle(k)), oracle(k).critic);
      RunFrom(cfg, t, oracle, k + 1)
    case HumanNode => AfterHuman(t)
    case ReportNode => AfterReport(t)
  }

  // --- Invocations of one thread ---------------------------------------------------------------------------

  /** One call of the compiled graph. The graph keeps a checkpoint for every job, and a later call for the same job in
      the same process goes on from there: `before` is what the thread holds, INITIAL if it is new. */
  datatype Invocation = Invocation(cfg: Config, before: State, candidates: seq<Candidate>, oracle: nat -> PassOracle)

  /** build_initial_inspection_state over a checkpoint: it sets these entries, and an empty trace is appended. The refund
      flag, the failure and unverified marks, the unreadable shots and the last decision stay. */
  function Resumed(before: State): State {
    before.(isMint := None, defects := [], score := None, reason := None, revision := 0)
  }

  /** The detector has run. */
  ghost function Begin(v: Invocation): State {
    Resumed(v.before).(candidates := v.candidates, executed := v.before.executed + [DetectorAgent])
  }

  ghost function Run(v: Invocation): State {
    RunFrom(v.cfg, Begin(v), v.oracle, 0)
  }
}
