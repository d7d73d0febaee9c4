/**
 Which shots were read, in the words of the vision model's answer: the coverage gate of app/ai/supervisor.py on the list
 of unreadable shots that app/ai/agents/vision.py keeps.
 */
module Coverage {
  import opened Options
  import opened Decisions
  import opened Defects
  import opened Vision
  import opened Inspection
  import opened InspectionLaws
  import Bags

  /** The answer lists every shot of the batch as unreadable. */
  predicate ListsEveryShot(cfg: Config, answer: VlmAnswer) {
    answer.Reading? && forall i :: 0 <= i < cfg.imageCount ==> i in answer.invalid
  }

  /** The shots of a batch. */
  function Batch(n: nat): (shots: set<int>)
    ensures forall i :: i in shots <==> 0 <= i < n
    ensures |shots| == n
  {
    if n == 0 then {} else Batch(n - 1) + {n - 1}
  }

  /** The count of the gate finds no readable shot exactly when the answer lists them all, whatever else it lists. */
  lemma CountIsCoverage(cfg: Config, answer: VlmAnswer)
    requires answer.Reading?
    ensures cfg.imageCount <= |InvalidShots(cfg, answer.invalid)| <==> ListsEveryShot(cfg, answer)
  {
    var shots := InvalidShots(cfg, answer.invalid);
    if ListsEveryShot(cfg, answer) {
      assert shots == Batch(cfg.imageCount);
    } else {
      var i :| 0 <= i < cfg.imageCount && i !in answer.invalid;
      Bags.SubsetSize(shots, Batch(cfg.imageCount) - {i});
    }
  }

  lemma PassCoverage(cfg: Config, s: State, o: PassOracle)
    requires Reads(cfg, s.defects) && o.vlm.Reading?
    ensures NothingReadable(cfg, Scored(cfg, s, o)) <==> ListsEveryShot(cfg, o.vlm)
  {
    ReadingSetsInvalid(cfg, s, o);
    CountIsCoverage(cfg, o.vlm);
  }

  /** An automatic decision on a batch that a model was to read has a shot that the reading does not list as unreadable. */
  lemma AutomaticMeansSomeShotRead(v: Invocation)
    requires v.cfg.llmAvailable && v.cfg.imageCount > 0 && ConvertState(Run(v)) != HITL
    ensures var answer := v.oracle(ReadingPass(v)).vlm;
            answer.Reading? && exists i :: 0 <= i < v.cfg.imageCount && i !in answer.invalid
  {
    AutomaticDecisionsAreRead(v);
    var answer := v.oracle(ReadingPass(v)).vlm;
    var i :| 0 <= i < v.cfg.imageCount && i !in InvalidShots(v.cfg, answer.invalid);
    assert i !in answer.invalid;
  }

  lemma EntryOfReadingPass(v: Invocation)
    requires v.cfg.llmAvailable && v.cfg.imageCount > 0
    ensures var entry := if LastPass(v).entry.defects == [] then LastPass(v).entry else Begin(v);
            && Reads(v.cfg, entry.defects)
            && (LastPass(v).entry.defects != [] ==> !NothingReadable(v.cfg, Scored(v.cfg, Begin(v), v.oracle(0)))
                                                    && !ReadingFails(v.cfg, Begin(v), v.oracle(0)))
  {
    LastEntry(v);
    if LastPass(v).entry.defects != [] {
      DecidedKeeps(v.cfg, Scored(v.cfg, Begin(v), v.oracle(0)), v.oracle(0).critic);
    }
  }

  /** If the reading lists every shot of the batch, the book goes to a human without a score, a mint flag or a refund. */
  lemma UnreadableBatchIsEscalated(v: Invocation)
    requires v.cfg.llmAvailable && v.cfg.imageCount > 0 && ListsEveryShot(v.cfg, v.oracle(ReadingPass(v)).vlm)
    ensures var f := Run(v);
            ConvertState(f) == HITL && f.score == None && f.isMint == Some(false) && f.autoRefund == Some(false)
  {
    var last := LastPass(v);
    EntryOfReadingPass(v);
    if last.entry.defects != [] {
      PassCoverage(v.cfg, Begin(v), v.oracle(0));
    } else {
      PassCoverage(v.cfg, last.entry, v.oracle(last.k));
      EndOfRun(v);
      EndOfPass(v.cfg, LastScored(v), LastAnswer(v));
    }
  }

  // --- Shots outside the batch -------------------------------------------------------------------------

  /** The answers differ in shots that are not in the batch, and in order and repetition, if at all. */
  predicate SameInBatch(cfg: Config, a: VlmAnswer, b: VlmAnswer) {
    match (a, b)
    case (Reading(m, r, i, h), Reading(m', r', i', h')) =>
      m == m' && r == r' && h == h' && forall n :: 0 <= n < cfg.imageCount ==> (n in i <==> n in i')
    case _ => a == b
  }

  predicate SamePass(cfg: Config, o: PassOracle, o': PassOracle) {
    SameInBatch(cfg, o.vlm, o'.vlm) && o.verdicts == o'.verdicts && o.critic == o'.critic
  }

  lemma SamePassSameState(cfg: Config, s: State, o: PassOracle, o': PassOracle)
    requires SamePass(cfg, o, o')
    ensures Pass(cfg, s, o) == Pass(cfg, s, o')
  {
    if o.vlm.Reading? {
      assert InvalidShots(cfg, o.vlm.invalid) == InvalidShots(cfg, o'.vlm.invalid);
      SameTaken(cfg, s.defects, o.vlm, o'.vlm);
    }
    assert AfterVision(cfg, s, o) == AfterVision(cfg, s, o');
  }

  lemma SameTaken(cfg: Config, before: seq<Defect>, a: VlmAnswer, b: VlmAnswer)
    requires a.Reading? && SameInBatch(cfg, a, b)
    ensures Taken(cfg, before, a) == Taken(cfg, before, b)
  {
    assert InvalidShots(cfg, a.invalid) == InvalidShots(cfg, b.invalid);
  }

  lemma {:induction false} SameRunFrom(cfg: Config, s: State, oracle: nat -> PassOracle, oracle': nat -> PassOracle, k: nat)
    requires forall n: nat :: SamePass(cfg, oracle(n), oracle'(n))
    ensures RunFrom(cfg, s, oracle, k) == RunFrom(cfg, s, oracle', k)
    decreases if s.revision < 2 then 2 - s.revision else 0
  {
    var t := Pass(cfg, s, oracle(k));
    SamePassSameState(cfg, s, oracle(k), oracle'(k));
    if RouteFromSupervisor(t) == VisionNode {
      ReadingKeepsCount(cfg, s, oracle(k));
      SentBack(cfg, Scored(cfg, s, oracle(k)), oracle(k).critic);
      SameRunFrom(cfg, t, oracle, oracle', k + 1);
    }
  }

  /** Listed shots that are not in the batch never change a result. */
  lemma ShotsOutsideDoNotMatter(v: Invocation, oracle': nat -> PassOracle)
    requires forall n: nat :: SamePass(v.cfg, v.oracle(n), oracle'(n))
    ensures Run(v) == Run(v.(oracle := oracle'))
  {
    SameRunFrom(v.cfg, Begin(v), v.oracle, oracle', 0);
  }

  // --- What a human has to look at ------------------------------------------------------------------------

  /** The defects of the last pass speak for themselves. */
  predicate Presentable(cfg: Config, ds: seq<Defect>) {
    forall d :: d in ds ==>
      && d.bbox.Some? && !d.copied && !d.ungrounded
      && (cfg.imageCount > 0 && d.imageIndex.Some? ==> 0 <= d.imageIndex.value < cfg.imageCount)
  }

  /** Nothing stands against an automatic decision. */
  lemma ClearIff(cfg: Config, p: State, answer: CriticAnswer)
    requires p.score.Some? ==> 0 <= p.score.value <= 100
    ensures Clear(cfg, p, answer) <==>
              && p.score.Some? && !(58 <= p.score.value <= 66)
              && Presentable(cfg, p.defects) && (p.defects == [] <==> p.score.value == 100)
              && !(cfg.llmAvailable && p.defects != [] && answer == Unsound)
              && !(cfg.imageCount > 0 && cfg.imageCount <= |p.invalid|)
  {
  }

  /** A book goes to a human exactly if its last pass has no score or one of 58 to 66 points, shows a defect without a box,
      outside the batch, copied or invented, has full points with a defect or less without one, is called unsound by the
      critic, or left no shot readable. */
  lemma EscalatedIff(v: Invocation)
    ensures var p := LastScored(v);
            ConvertState(Run(v)) == HITL <==>
              || p.score.None? || 58 <= p.score.value <= 66
              || !Presentable(v.cfg, p.defects) || (p.defects != [] <==> p.score.value == 100)
              || (v.cfg.llmAvailable && p.defects != [] && LastAnswer(v) == Unsound)
              || (v.cfg.imageCount > 0 && v.cfg.imageCount <= |p.invalid|)
  {
    EndOfRun(v);
    ScoreOfPass(v.cfg, LastPass(v).entry, v.oracle(LastPass(v).k));
    ClearIff(v.cfg, LastScored(v), LastAnswer(v));
  }
}
