/** What every run of the inspection graph keeps, whatever the models answer and whatever the checkpoint holds. */
module InspectionLaws {
  import opened Options
  import opened Decisions
  import opened Defects
  import opened UbciMatrix
  import opened Vision
  import opened Inspection
  import Scoring
  import ScoringLaws
  import InspectionRun

  // --- One pass -------------------------------------------------------------------------------

  /** The pass asks the vision model, and gets no reading. */
  predicate ReadingFails(cfg: Config, s: State, o: PassOracle) {
    Reads(cfg, s.defects) && o.vlm.Failure?
  }

  /** The policy finds a failure mark: of this reading, or left over. */
  predicate Marked(cfg: Config, s: State, o: PassOracle) {
    s.visionFailed || ReadingFails(cfg, s, o)
  }

  ghost function PassOutcome(cfg: Config, s: State, o: PassOracle): Outcome
    requires !ReadingFails(cfg, s, o)
  {
    Looked(cfg, s.candidates, s.defects, o.vlm, o.verdicts)
  }

  /** A marked pass gets no score, and its defects are not charged. */
  lemma UnscoredPass(cfg: Config, s: State, o: PassOracle)
    requires Marked(cfg, s, o)
    ensures var p := Scored(cfg, s, o);
            if ReadingFails(cfg, s, o)
            then p == s.(isMint := None, defects := [], visionFailed := true, score := None, executed := p.executed)
            else var out := PassOutcome(cfg, s, o);
                 p == s.(isMint := Some(out.isMint), defects := out.defects, invalid := out.invalid, score := None, executed := p.executed)
  {
  }

  lemma ScoredPass(cfg: Config, s: State, o: PassOracle)
    requires !Marked(cfg, s, o)
    ensures var p, out := Scored(cfg, s, o), PassOutcome(cfg, s, o);
            && p.defects == Scoring.Charged(out.defects, cfg.workbook) && |p.defects| == |out.defects|
            && p.score == Some(Scoring.Score(out.defects, cfg.workbook))
            && p == s.(isMint := Some(out.isMint), defects := p.defects, invalid := out.invalid, score := p.score,
                       unverified := p.unverified, reason := None, executed := p.executed)
            && (p.unverified <==> p.defects != [] && p.score == Some(100))
  {
    var out := PassOutcome(cfg, s, o);
    assert |Scoring.Charged(out.defects, cfg.workbook)| == |out.defects|;
  }

  /** The score of a pass: absent exactly after a marked reading, 100 for a book without defects. */
  lemma ScoreOfPass(cfg: Config, s: State, o: PassOracle)
    ensures var p := Scored(cfg, s, o);
            && (p.score.None? <==> Marked(cfg, s, o)) && (p.visionFailed <==> Marked(cfg, s, o))
            && (p.score.Some? ==> 0 <= p.score.value <= 100)
            && (p.defects == [] && p.score.Some? ==> p.score.value == 100)
            && (ReadingFails(cfg, s, o) ==> p.defects == [] && p.invalid == s.invalid)
            && p.revision == s.revision && p.autoRefund == s.autoRefund
            && p.unverified == if p.score.Some? then p.defects != [] && p.score == Some(100) else s.unverified
  {
    if Marked(cfg, s, o) {
      UnscoredPass(cfg, s, o);
    } else {
      ScoredPass(cfg, s, o);
      ScoringLaws.PerfectScore(PassOutcome(cfg, s, o).defects, cfg.workbook);
    }
  }

  /** The unreadable shots of a pass are those of its reading. */
  lemma ReadingSetsInvalid(cfg: Config, s: State, o: PassOracle)
    requires !ReadingFails(cfg, s, o)
    ensures Scored(cfg, s, o).invalid == if Reads(cfg, s.defects) then InvalidShots(cfg, o.vlm.invalid) else {}
  {
    if Marked(cfg, s, o) {
      UnscoredPass(cfg, s, o);
    } else {
      ScoredPass(cfg, s, o);
    }
  }

  // --- A second pass --------------------------------------------------------------------------------

  /** The pass reads afresh: nothing known, no failure mark. */
  predicate CanRead(s: State) {
    s.defects == [] && !s.visionFailed
  }

  lemma DecidedKeeps(cfg: Config, p: State, answer: CriticAnswer)
    ensures Decided(cfg, p, answer).unverified == p.unverified && Decided(cfg, p, answer).invalid == p.invalid
    ensures RouteFromSupervisor(Decided(cfg, p, answer)) == VisionNode ==>
              Decided(cfg, p, answer).autoRefund == p.autoRefund && !NothingReadable(cfg, p)
  {
    CriticKeeps(cfg, p, answer);
    SupervisorKeeps(cfg, AfterCritic(cfg, p, answer));
  }

  lemma CriticKeeps(cfg: Config, p: State, answer: CriticAnswer)
    ensures var c := AfterCritic(cfg, p, answer);
            && c.candidates == p.candidates && c.unverified == p.unverified && c.invalid == p.invalid && c.autoRefund == p.autoRefund
            && (c.defects == p.defects || c.defects == []) && c.executed == p.executed + [CriticAgent]
  {
  }

  lemma SupervisorKeeps(cfg: Config, c: State)
    ensures var t := AfterSupervisor(cfg, c);
            && t.candidates == c.candidates && t.unverified == c.unverified && t.invalid == c.invalid && t.defects == c.defects
            && t.executed == c.executed + [SupervisorAgent]
            && (RouteFromSupervisor(t) == VisionNode ==> t.autoRefund == c.autoRefund && !NothingReadable(cfg, c))
  {
  }

  /** A book that is sent back for a second reading is read afresh, except where a failure mark was left over in the
      checkpoint and the first reading found defects: they go into the second pass unread and uncharged. */
  lemma RetryCanRead(cfg: Config, s: State, o: PassOracle)
    requires s.defects == [] && RouteFromSupervisor(Pass(cfg, s, o)) == VisionNode
    ensures var t := Pass(cfg, s, o);
            && t.revision == s.revision + 1 && !t.visionFailed && t.autoRefund == s.autoRefund
            && (t.unverified ==> s.unverified)
            && (CanRead(t) <==> !(s.visionFailed && !ReadingFails(cfg, s, o) && PassOutcome(cfg, s, o).defects != []))
            && (t.defects != [] ==> s.visionFailed && !ReadingFails(cfg, s, o) && t.defects == PassOutcome(cfg, s, o).defects)
  {
    var p := Scored(cfg, s, o);
    ScoreOfPass(cfg, s, o);
    SentBack(cfg, p, o.critic);
    DecidedKeeps(cfg, p, o.critic);
    if Marked(cfg, s, o) {
      UnscoredPass(cfg, s, o);
    }
  }

  lemma PassKeepsCandidates(cfg: Config, s: State, o: PassOracle)
    ensures Pass(cfg, s, o).candidates == s.candidates
    ensures Pass(cfg, s, o).defects == Scored(cfg, s, o).defects || Pass(cfg, s, o).defects == []
  {
    if Marked(cfg, s, o) {
      UnscoredPass(cfg, s, o);
    } else {
      ScoredPass(cfg, s, o);
    }
    DecidedKeepsReport(cfg, Scored(cfg, s, o), o.critic);
  }

  lemma DecidedKeepsReport(cfg: Config, p: State, answer: CriticAnswer)
    ensures Decided(cfg, p, answer).candidates == p.candidates
    ensures Decided(cfg, p, answer).defects == p.defects || Decided(cfg, p, answer).defects == []
  {
    CriticKeeps(cfg, p, answer);
    SupervisorKeeps(cfg, AfterCritic(cfg, p, answer));
  }

  // --- A whole run ------------------------------------------------------------------------------

  /** The last pass of a run: the state it began in and its number. */
  datatype Last = Last(entry: State, k: nat)

  ghost function FirstPass(v: Invocation): State {
    Pass(v.cfg, Begin(v), v.oracle(0))
  }

  ghost function LastPass(v: Invocation): Last {
    if RouteFromSupervisor(FirstPass(v)) == VisionNode then Last(FirstPass(v), 1) else Last(Begin(v), 0)
  }

  /** The state of the last pass before the critic. */
  ghost function LastScored(v: Invocation): State {
    Scored(v.cfg, LastPass(v).entry, v.oracle(LastPass(v).k))
  }

  ghost function LastAnswer(v: Invocation): CriticAnswer {
    v.oracle(LastPass(v).k).critic
  }

  /** Every run is one or two passes and an end; the critic never meets a used-up count. */
  lemma RunHasOneOrTwoPasses(v: Invocation)
    ensures var last := LastPass(v);
            var t := Pass(v.cfg, last.entry, v.oracle(last.k));
            && last.k == last.entry.revision <= 1
            && RouteFromSupervisor(t) != VisionNode
            && Run(v) == InspectionRun.Ending(v.cfg, t, v.oracle, last.k + 1)
  {
    var s0 := Begin(v);
    InspectionRun.OnePassOfRun(v.cfg, s0, v.oracle, 0);
    if RouteFromSupervisor(FirstPass(v)) == VisionNode {
      RetryCanRead(v.cfg, s0, v.oracle(0));
      InspectionRun.OnePassOfRun(v.cfg, FirstPass(v), v.oracle, 1);
    }
  }

  /** What the last pass inherits. */
  lemma LastEntry(v: Invocation)
    ensures var s := LastPass(v).entry;
            && s.autoRefund == v.before.autoRefund && (s.unverified ==> v.before.unverified)
            && (s.visionFailed ==> v.before.visionFailed && LastPass(v).k == 0)
            && (s.defects != [] ==> LastPass(v).k == 1 && v.before.visionFailed && !ReadingFails(v.cfg, Begin(v), v.oracle(0))
                                    && s.defects == PassOutcome(v.cfg, Begin(v), v.oracle(0)).defects)
  {
    if RouteFromSupervisor(FirstPass(v)) == VisionNode {
      RetryCanRead(v.cfg, Begin(v), v.oracle(0));
    }
  }

  // --- The trace of agents ------------------------------------------------------------------------

  const BLOCK := [VisionAgentNode, PolicyAgent, CriticAgent, SupervisorAgent]

  lemma DecidedTrace(cfg: Config, p: State, answer: CriticAnswer)
    ensures Decided(cfg, p, answer).executed == p.executed + [CriticAgent] + [SupervisorAgent]
  {
    CriticKeeps(cfg, p, answer);
    SupervisorKeeps(cfg, AfterCritic(cfg, p, answer));
  }

  lemma BlockIsFourAgents(xs: seq<Agent>)
    ensures xs + [VisionAgentNode, PolicyAgent] + [CriticAgent] + [SupervisorAgent] == xs + BLOCK
  {
  }

  lemma PassTrace(cfg: Config, s: State, o: PassOracle)
    ensures Pass(cfg, s, o).executed == s.executed + BLOCK
  {
    ReadingKeepsCount(cfg, s, o);
    DecidedTrace(cfg, Scored(cfg, s, o), o.critic);
    BlockIsFourAgents(s.executed);
  }

  function Blocks(n: nat): seq<Agent> {
    if n == 0 then [] else Blocks(n - 1) + BLOCK
  }

  lemma OneMoreBlock(xs: seq<Agent>, n: nat)
    ensures xs + Blocks(n) + BLOCK == xs + Blocks(n + 1)
  {
  }

  lemma EntryTrace(v: Invocation)
    ensures LastPass(v).entry.executed == v.before.executed + [DetectorAgent] + Blocks(LastPass(v).k)
  {
    var start := v.before.executed + [DetectorAgent];
    assert start + Blocks(0) == start;
    PassTrace(v.cfg, Begin(v), v.oracle(0));
    OneMoreBlock(start, 0);
  }

  /** The trace of agents: what the thread held, the detector, one or two full blocks, and a report exactly when the book
      is not left to a human. It is the run's own trace exactly on a thread that held none. */
  lemma TraceOfRun(v: Invocation)
    ensures var own := [DetectorAgent] + Blocks(LastPass(v).k + 1) + if ConvertState(Run(v)) == HITL then [] else [ReportAgent];
            && Run(v).executed == v.before.executed + own
            && (Run(v).executed == own <==> v.before.executed == [])
  {
    var last := LastPass(v);
    EntryTrace(v);
    PassTrace(v.cfg, last.entry, v.oracle(last.k));
    TraceOfEnd(v);
    OneMoreBlock(v.before.executed + [DetectorAgent], last.k);
    var blocks, tail := Blocks(last.k + 1), if ConvertState(Run(v)) == HITL then [] else [ReportAgent];
    TraceParts(v.before.executed, blocks, tail);
  }

  lemma TraceOfEnd(v: Invocation)
    ensures Run(v).executed == Pass(v.cfg, LastPass(v).entry, v.oracle(LastPass(v).k)).executed
                               + if ConvertState(Run(v)) == HITL then [] else [ReportAgent]
  {
    RunHasOneOrTwoPasses(v);
    EndOfRun(v);
  }

  lemma TraceParts(before: seq<Agent>, blocks: seq<Agent>, tail: seq<Agent>)
    ensures before + [DetectorAgent] + blocks + tail == before + ([DetectorAgent] + blocks + tail)
    ensures before + ([DetectorAgent] + blocks + tail) == [DetectorAgent] + blocks + tail <==> before == []
  {
    assert |before + ([DetectorAgent] + blocks + tail)| == |before| + |[DetectorAgent] + blocks + tail|;
  }

  // --- The end of a run ---------------------------------------------------------------------------

  /** The conditions under which the supervisor lets a scored book go to the report. */
  predicate Clear(cfg: Config, p: State, answer: CriticAnswer) {
    && p.score.Some? && !OnBoundary(p.score) && Consistent(p.defects, cfg.imageCount, p.score)
    && !(cfg.llmAvailable && p.defects != [] && answer == Unsound)
    && !NothingReadable(cfg, p)
  }

  /** A cleared book goes to the report as it is. */
  predicate GoesOut(p: State, t: State) {
    RouteFromSupervisor(t) == ReportNode && t == p.(reason := Some(Ok), decision := Some(IssueReport), executed := t.executed)
  }

  /** A book that is left to a human keeps its score, marks and refund flag, unless no shot was readable. */
  predicate GoesToHuman(cfg: Config, p: State, t: State) {
    && RouteFromSupervisor(t) == HumanNode && t.decision == Some(EscalateHuman)
    && (p.score.None? ==> !t.visionFailed) && (p.score.Some? ==> t.visionFailed == p.visionFailed)
    && (t.defects == p.defects || t.defects == [])
    && (t.score == if NothingReadable(cfg, p) then None else p.score)
    && (NothingReadable(cfg, p) ==> t.isMint == Some(false))
    && t.unverified == p.unverified && t.invalid == p.invalid
    && t.autoRefund == if NothingReadable(cfg, p) then Some(false) else p.autoRefund
  }

  /** What the critic leaves alone, and when it lets a book pass. */
  lemma CriticsReport(cfg: Config, p: State, answer: CriticAnswer)
    requires p.revision < 2
    ensures var c := AfterCritic(cfg, p, answer);
            && c == p.(reason := c.reason, revision := c.revision, defects := c.defects, visionFailed := c.visionFailed, executed := c.executed)
            && (c.defects == p.defects || c.defects == []) && c.visionFailed == (p.visionFailed && p.score.Some?)
            && c.reason in {Some(BoundaryHitl), Some(Reason.Reject), Some(HumanRequired), Some(Ok)}
            && (c.reason == Some(Ok) ==> c.revision == p.revision && c.defects == p.defects)
            && (c.reason == Some(Ok) && !NothingReadable(cfg, p) <==> Clear(cfg, p, answer))
  {
  }

  lemma SupervisorClears(cfg: Config, c: State)
    requires c.revision < 2 && c.reason == Some(Ok) && !NothingReadable(cfg, c)
    ensures AfterSupervisor(cfg, c) == c.(executed := c.executed + [SupervisorAgent], decision := Some(IssueReport))
  {
  }

  lemma SupervisorHandsOver(cfg: Config, c: State)
    requires NothingReadable(cfg, c) || c.reason in {Some(BoundaryHitl), Some(Reason.Reject), Some(HumanRequired)}
    requires RouteFromSupervisor(AfterSupervisor(cfg, c)) != VisionNode
    ensures var t := AfterSupervisor(cfg, c);
            && RouteFromSupervisor(t) == HumanNode
            && t == (if NothingReadable(cfg, c) then c.(score := None, isMint := Some(false), autoRefund := Some(false)) else c)
                    .(decision := Some(EscalateHuman), reason := t.reason, executed := t.executed)
  {
  }

  lemma EndOfPass(cfg: Config, p: State, answer: CriticAnswer)
    requires p.revision < 2 && RouteFromSupervisor(Decided(cfg, p, answer)) != VisionNode
    ensures if Clear(cfg, p, answer) then GoesOut(p, Decided(cfg, p, answer)) else GoesToHuman(cfg, p, Decided(cfg, p, answer))
  {
    var c := AfterCritic(cfg, p, answer);
    CriticsReport(cfg, p, answer);
    if Clear(cfg, p, answer) {
      SupervisorClears(cfg, c);
    } else {
      SupervisorHandsOver(cfg, c);
    }
  }

  /** A run in terms of its last pass. */
  lemma EndOfRun(v: Invocation)
    ensures var t := Decided(v.cfg, LastScored(v), LastAnswer(v));
            && LastScored(v).revision < 2 && RouteFromSupervisor(t) != VisionNode
            && (ConvertState(Run(v)) != HITL <==> Clear(v.cfg, LastScored(v), LastAnswer(v)))
            && Run(v) == if Clear(v.cfg, LastScored(v), LastAnswer(v)) then AfterReport(t) else AfterHuman(t)
  {
    RunHasOneOrTwoPasses(v);
    ScoreOfPass(v.cfg, LastPass(v).entry, v.oracle(LastPass(v).k));
    EndOfPass(v.cfg, LastScored(v), LastAnswer(v));
  }

  /** The entries of a final state. */
  lemma FinalState(v: Invocation)
    ensures var p, f := LastScored(v), Run(v);
            && !f.visionFailed && f.unverified == p.unverified && f.invalid == p.invalid
            && f.score == (if NothingReadable(v.cfg, p) then None else p.score)
            && (f.defects == p.defects || (f.defects == [] && ConvertState(f) == HITL))
            && f.reason == Some(if ConvertState(f) == HITL then AwaitingHumanReview else Ok)
            && f.decision == Some(if ConvertState(f) == HITL then EscalateHuman else IssueReport)
            && f.autoRefund == (if ConvertState(f) != HITL then Some(p.isMint == Some(true) && p.score.GetOr(0) >= 95)
                                else if NothingReadable(v.cfg, p) then Some(false) else v.before.autoRefund)
            && (ConvertState(f) != HITL ==> f.isMint == p.isMint)
  {
    EndOfRun(v);
    EndOfPass(v.cfg, LastScored(v), LastAnswer(v));
    ScoreOfPass(v.cfg, LastPass(v).entry, v.oracle(LastPass(v).k));
    LastEntry(v);
  }

  // --- Automatic decisions ------------------------------------------------------------------------

  /** Some shot of the batch is not listed as unreadable. */
  predicate SomeShotReadable(cfg: Config, invalid: set<int>) {
    exists i :: 0 <= i < cfg.imageCount && i !in invalid
  }

  lemma {:induction false} AllListed(n: nat, invalid: set<int>)
    requires forall i :: 0 <= i < n ==> i in invalid
    ensures n <= |invalid|
  {
    if n == 0 {
    } else {
      AllListed(n - 1, invalid - {n - 1});
    }
  }

  /** The supervisor's count of unreadable shots misses none: fewer than all of them leaves a readable one. */
  lemma FewerLeavesOne(cfg: Config, invalid: set<int>)
    requires |invalid| < cfg.imageCount
    ensures SomeShotReadable(cfg, invalid)
  {
    if forall i :: 0 <= i < cfg.imageCount ==> i in invalid {
      AllListed(cfg.imageCount, invalid);
    }
  }

  /** The answer is a reading, and it leaves a shot of the batch readable. */
  predicate Backs(cfg: Config, o: PassOracle) {
    o.vlm.Reading? && SomeShotReadable(cfg, InvalidShots(cfg, o.vlm.invalid))
  }

  lemma ReadPassBacks(cfg: Config, s: State, o: PassOracle)
    requires Reads(cfg, s.defects) && !ReadingFails(cfg, s, o) && !NothingReadable(cfg, Scored(cfg, s, o))
    ensures Backs(cfg, o)
  {
    ReadingSetsInvalid(cfg, s, o);
    FewerLeavesOne(cfg, InvalidShots(cfg, o.vlm.invalid));
  }

  /** The number of the pass whose reading the last pass works with. */
  ghost function ReadingPass(v: Invocation): nat {
    if LastPass(v).entry.defects == [] then LastPass(v).k else 0
  }

  lemma AutomaticDecisionsAreRead(v: Invocation)
    requires Reads(v.cfg, []) && ConvertState(Run(v)) != HITL
    ensures Backs(v.cfg, v.oracle(ReadingPass(v)))
  {
    var last := LastPass(v);
    EndOfRun(v);
    LastEntry(v);
    ScoreOfPass(v.cfg, last.entry, v.oracle(last.k));
    if last.entry.defects == [] {
      ReadPassBacks(v.cfg, last.entry, v.oracle(last.k));
    } else {
      DecidedKeeps(v.cfg, Scored(v.cfg, Begin(v), v.oracle(0)), v.oracle(0).critic);
      ReadPassBacks(v.cfg, Begin(v), v.oracle(0));
    }
  }

  /** What an automatic decision rests on, for every checkpoint and every answer of the models: where there is a model
      and an image, a reading of this run succeeded and left a shot readable, the last one unless a failure mark was left
      over; the score exists and is off the boundary, Stage A finds nothing in the defects that are stored, and the book
      has no defects exactly at 100 points. */
  lemma AutomaticDecisionsAreBacked(v: Invocation)
    ensures var f := Run(v);
            ConvertState(f) != HITL ==>
              && (Reads(v.cfg, []) ==> Backs(v.cfg, v.oracle(ReadingPass(v))))
              && (ReadingPass(v) == LastPass(v).k || v.before.visionFailed)
              && f.score.Some? && 0 <= f.score.value <= 100 && !(58 <= f.score.value <= 66)
              && Consistent(f.defects, v.cfg.imageCount, f.score)
              && (f.defects == [] <==> f.score == Some(100))
  {
    EndOfRun(v);
    FinalState(v);
    LastEntry(v);
    ScoreOfPass(v.cfg, LastPass(v).entry, v.oracle(LastPass(v).k));
    if Reads(v.cfg, []) && ConvertState(Run(v)) != HITL {
      AutomaticDecisionsAreRead(v);
    }
  }

  /** The score that report_agent would invent for a missing one is never used, a failed reading is never stored as
      a failure, and the stored reason says only whether a human has to look. */
  lemma StoredMarks(v: Invocation)
    ensures var f := Run(v);
            && !f.visionFailed
            && f.reason == Some(if ConvertState(f) == HITL then AwaitingHumanReview else Ok)
            && (ConvertState(f) == HITL <==> f.decision == Some(EscalateHuman))
  {
    FinalState(v);
  }

  /** A run ends without a score exactly when its last pass asked for a reading that failed, or no shot was readable. */
  lemma NoScoreMeansNotInspected(v: Invocation)
    ensures Run(v).score.None? <==>
              || ReadingFails(v.cfg, LastPass(v).entry, v.oracle(LastPass(v).k))
              || NothingReadable(v.cfg, LastScored(v))
  {
    var last := LastPass(v);
    FinalState(v);
    LastEntry(v);
    RunHasOneOrTwoPasses(v);
    ScoreOfPass(v.cfg, last.entry, v.oracle(last.k));
    if last.entry.visionFailed && !NothingReadable(v.cfg, LastScored(v)) {
      MarkedIsSentBack(v.cfg, last.entry, v.oracle(last.k));
    }
  }

  /** A first pass with a failure mark is never the end, unless no shot was readable. */
  lemma MarkedIsSentBack(cfg: Config, s: State, o: PassOracle)
    requires Marked(cfg, s, o) && s.revision == 0 && !NothingReadable(cfg, Scored(cfg, s, o))
    ensures RouteFromSupervisor(Pass(cfg, s, o)) == VisionNode
  {
    ScoreOfPass(cfg, s, o);
  }

  /** The stored decision follows the matrix's own verdict on the score except in two cases: the mint flag of the
      vision model approves any score, and without it 67 to 69 points are refused. */
  lemma DecisionFollowsScore(v: Invocation)
    ensures var f := Run(v);
            ConvertState(f) != HITL ==>
              f.score.Some?
              && ((ConvertState(f) == APPROVE <==> DecisionApproves(f.score.value)) <==>
                    if f.isMint == Some(true) then f.score.value >= 58 else !(67 <= f.score.value <= 69))
  {
    AutomaticDecisionsAreBacked(v);
    StoredMarks(v);
  }

  // --- Marks that outlive a run ---------------------------------------------------------------------

  /** The refund flag is an approval at 95 points or more of a book that the vision model called mint, or the flag of an
      earlier run that this one left to a human without clearing it. */
  lemma RefundsOfRun(v: Invocation)
    ensures var f := Run(v);
            f.autoRefund == Some(true) <==>
              || (ConvertState(f) == APPROVE && f.isMint == Some(true) && f.score.Some? && f.score.value >= 95)
              || (ConvertState(f) == HITL && v.before.autoRefund == Some(true) && !NothingReadable(v.cfg, LastScored(v)))
  {
    FinalState(v);
    EndOfRun(v);
  }

  /** The unverified mark of a scored book says that defects were reported and the score is 100; such a book goes to a
      human. Without a score the mark is an earlier run's. */
  lemma UnverifiedOfRun(v: Invocation)
    ensures var p, f := LastScored(v), Run(v);
            && (p.score.Some? ==> (f.unverified <==> p.defects != [] && p.score == Some(100)))
            && (p.score.None? && f.unverified ==> v.before.unverified)
            && (f.unverified ==> ConvertState(f) == HITL)
  {
    FinalState(v);
    EndOfRun(v);
    LastEntry(v);
    ScoreOfPass(v.cfg, LastPass(v).entry, v.oracle(LastPass(v).k));
  }
}
