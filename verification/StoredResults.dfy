/** What a finished run leaves in the stored defects, and two runs whose decision does not follow the score. */
module StoredResults {
  import opened Options
  import opened Decisions
  import opened Defects
  import opened UbciMatrix
  import opened Vision
  import opened VisionLaws
  import opened Inspection
  import opened InspectionLaws
  import opened Scoring
  import opened ScoringLaws
  import Bags
  import Coordinates
  import Grounding

  // --- Stored defects ---------------------------------------------------------------------------

  /** The defects that a run stores are those of its last pass before the critic, charged if they were scored. */
  lemma StoredDefects(v: Invocation, d: Defect)
    requires d in Run(v).defects
    ensures !ReadingFails(v.cfg, LastPass(v).entry, v.oracle(LastPass(v).k))
    ensures var s, o := LastPass(v).entry, v.oracle(LastPass(v).k);
            d in if Marked(v.cfg, s, o) then PassOutcome(v.cfg, s, o).defects
                 else Charged(PassOutcome(v.cfg, s, o).defects, v.cfg.workbook)
  {
    var s, o := LastPass(v).entry, v.oracle(LastPass(v).k);
    FinalState(v);
    ScoreOfPass(v.cfg, s, o);
    if Marked(v.cfg, s, o) {
      UnscoredPass(v.cfg, s, o);
    } else {
      ScoredPass(v.cfg, s, o);
    }
  }

  /** No stored dismissal rests on an unseen spot, unless the checkpoint held the failure mark of an interrupted run. */
  lemma StoredDismissalsAreWitnessed(v: Invocation)
    requires !v.before.visionFailed
    ensures forall d :: d in Run(v).defects && d.suspect ==> Witnessed(v.cfg, d)
  {
    var s, o := LastPass(v).entry, v.oracle(LastPass(v).k);
    LastEntry(v);
    forall d | d in Run(v).defects && d.suspect
      ensures Witnessed(v.cfg, d)
    {
      StoredDefects(v, d);
      ReadingLaws(v.cfg, s.candidates, o.vlm, o.verdicts);
      ChargedDismissals(v.cfg, PassOutcome(v.cfg, s, o).defects);
    }
  }

  lemma ChargedDismissals(cfg: Config, ds: seq<Defect>)
    requires forall d :: d in ds && d.suspect ==> Witnessed(cfg, d)
    ensures forall d :: d in Charged(ds, cfg.workbook) && d.suspect ==> Witnessed(cfg, d)
  {
    forall d | d in Charged(ds, cfg.workbook) && d.suspect
      ensures Witnessed(cfg, d)
    {
      var i :| 0 <= i < |ds| && Charged(ds, cfg.workbook)[i] == d;
      ChargingKeepsReport(ds, cfg.workbook, i);
      assert ds[i] in ds && Witnessed(cfg, ds[i]);
    }
  }

  /** The charges in a list account for a deduction: single ones one by one, each group once. */
  ghost predicate AccountsFor(ds: seq<Defect>, total: nat, wear: nat) {
    && total == SingleCharges(ds)
         + (if AnyInGroup(ds, EdgeWearGroup) then wear else 0)
         + (if AnyInGroup(ds, WorkbookDoodleGroup) then WORKBOOK_DOODLE_CAP else 0)
    && forall d :: d in ds ==>
         && (InGroup(d, EdgeWearGroup) ==> d.charge.applied == Some(wear))
         && (InGroup(d, WorkbookDoodleGroup) ==> d.charge.applied == Some(WORKBOOK_DOODLE_CAP))
         && (d.suspect ==> d.charge.applied == Some(0) && d.charge.scope == Some(Excluded))
  }

  lemma ScoredChargesAccount(ds: seq<Defect>, workbook: bool)
    requires !AnyFatal(ds) && NoStrayGroup(ds)
    ensures AccountsFor(Charged(ds, workbook), Total(ds, workbook), WearDeduction(ds))
    ensures Score(ds, workbook) == if Total(ds, workbook) > 100 then 0 else 100 - Total(ds, workbook)
  {
    ChargesAccountForTotal(ds, workbook);
    GroupValuesShown(ds, workbook);
  }

  lemma ChargeIsHarmless(d: Defect, charge: Charge)
    ensures Fatal(d.(charge := charge)) <==> Fatal(d)
  {
  }

  lemma ChargedFatalAt(ds: seq<Defect>, workbook: bool, i: nat)
    requires i < |ds|
    ensures Fatal(Charged(ds, workbook)[i]) <==> Fatal(ds[i])
  {
    ChargingKeepsReport(ds, workbook, i);
    ChargeIsHarmless(ds[i], Charged(ds, workbook)[i].charge);
  }

  lemma SameFatal(ds: seq<Defect>, out: seq<Defect>)
    requires |out| == |ds| && forall i :: 0 <= i < |ds| ==> (Fatal(out[i]) <==> Fatal(ds[i]))
    ensures AnyFatal(ds) ==> AnyFatal(out)
  {
    if AnyFatal(ds) {
      var i :| 0 <= i < |ds| && Fatal(ds[i]);
      assert out[i] in out;
    }
  }

  /** Charging makes no defect fatal and none harmless. */
  lemma ChargedFatal(ds: seq<Defect>, workbook: bool)
    ensures AnyFatal(Charged(ds, workbook)) <==> AnyFatal(ds)
  {
    forall i | 0 <= i < |ds|
      ensures Fatal(Charged(ds, workbook)[i]) <==> Fatal(ds[i])
    {
      ChargedFatalAt(ds, workbook, i);
    }
    SameFatal(ds, Charged(ds, workbook));
    SameFatal(Charged(ds, workbook), ds);
  }

  /** The defects of a pass have not been charged before. */
  lemma PassIsUncharged(v: Invocation)
    requires !ReadingFails(v.cfg, LastPass(v).entry, v.oracle(LastPass(v).k))
    ensures NoStrayGroup(PassOutcome(v.cfg, LastPass(v).entry, v.oracle(LastPass(v).k)).defects)
  {
    var s, o := LastPass(v).entry, v.oracle(LastPass(v).k);
    LastEntry(v);
    if s.defects != [] {
      LookedIsUncharged(v.cfg, v.candidates, [], v.oracle(0).vlm, v.oracle(0).verdicts);
    }
    LookedIsUncharged(v.cfg, s.candidates, s.defects, o.vlm, o.verdicts);
  }

  /** The charges explain the score, down to 0 points; only a fatal defect takes everything without a sum. */
  ghost predicate Explained(ds: seq<Defect>, score: int) {
    if AnyFatal(ds) then score == 0
    else exists total: nat, wear: nat :: AccountsFor(ds, total, wear) && score == if total > 100 then 0 else 100 - total
  }

  lemma ChargesExplainScore(ds: seq<Defect>, workbook: bool)
    requires NoStrayGroup(ds)
    ensures Explained(Charged(ds, workbook), Score(ds, workbook))
  {
    ChargedFatal(ds, workbook);
    if !AnyFatal(ds) {
      ScoredChargesAccount(ds, workbook);
    }
  }

  /** The charges that an automatic decision stores explain its score. */
  lemma StoredChargesAccountForScore(v: Invocation)
    ensures ConvertState(Run(v)) != HITL ==> Run(v).score.Some? && Explained(Run(v).defects, Run(v).score.value)
  {
    var s, o := LastPass(v).entry, v.oracle(LastPass(v).k);
    EndOfRun(v);
    FinalState(v);
    ScoreOfPass(v.cfg, s, o);
    if ConvertState(Run(v)) != HITL {
      ScoredPass(v.cfg, s, o);
      PassIsUncharged(v);
      ChargesExplainScore(PassOutcome(v.cfg, s, o).defects, v.cfg.workbook);
    }
  }

  /** The overlay of an automatic decision can always be built, and shows photographed shots only. A result that makes
      it raise was meant for a human. */
  lemma AutomaticResultsCanBeDrawn(v: Invocation, urls: seq<string>)
    requires v.cfg.imageCount > 0
    ensures forall d :: d in Run(v).defects && d.bbox.Some? && !(0 <= Coordinates.ShotOf(d) < v.cfg.imageCount) ==>
              ConvertState(Run(v)) == HITL
    ensures forall d :: d in Run(v).defects && d.bbox.Some? && !Coordinates.Addressable(Coordinates.ShotOf(d), urls) ==>
              ConvertState(Run(v)) == HITL
  {
    AutomaticDecisionsAreBacked(v);
  }

  // --- A plain reading ------------------------------------------------------------------------------

  const SPOT := BBox(Some(0), Some(0), Some(100), Some(100))

  /** A report of one small spot in shot 0, without a confidence. */
  predicate PlainReport(r: Reported) {
    r.bbox == Some(SPOT) && r.imageIndex == Some(0) && r.confidence == None
  }

  predicate PlainReports(rs: seq<Reported>) {
    rs != [] && forall i :: 0 <= i < |rs| ==> PlainReport(rs[i])
  }

  /** What a plain report becomes when the evidence check confirms it. */
  function Seen(r: Reported): Defect {
    FromReport(r).(verify := Confirmed)
  }

  function AllSeen(rs: seq<Reported>): (ds: seq<Defect>)
    ensures |ds| == |rs|
  {
    seq(|rs|, i requires 0 <= i < |rs| => Seen(rs[i]))
  }

  const ONE_SHOT := Config(1, true, false, false, 10_100, false)

  lemma {:induction false} NothingDropped(ds: seq<Defect>)
    requires forall i :: 0 <= i < |ds| ==> !InnerWear(ds[i])
    ensures WithoutInnerWear(ds) == ds
  {
    if ds == [] {
    } else {
      NothingDropped(ds[..|ds| - 1]);
    }
  }

  lemma {:induction false} NoSelfReports(ds: seq<Defect>)
    requires forall i :: 0 <= i < |ds| ==> ds[i].confidence.None?
    ensures SelfReports(ds) == []
  {
    if ds == [] {
    } else {
      NoSelfReports(ds[..|ds| - 1]);
    }
  }

  lemma OneCorner(ds: seq<Defect>, size: (int, int))
    requires forall i :: 0 <= i < |ds| ==> Grounding.CornerOf(ds[i]) == (0, 0)
    ensures !Grounding.EvenlySpaced(Grounding.Corners(ds, size))
  {
    Bags.SubsetSize(Grounding.Corners(ds, size), {(0, 0)});
  }

  lemma NothingInvented(ds: seq<Defect>)
    requires forall i :: 0 <= i < |ds| ==> ds[i].bbox == Some(SPOT) && ds[i].imageIndex == Some(0)
    ensures GroundedMarks(ds) == ds
  {
    forall i | 0 <= i < |ds|
      ensures !Grounding.Ungrounded(ds, ds[i])
    {
      OneCorner(ds, Grounding.SizeOf(ds[i]));
    }
  }

  lemma PlainTaken(cfg: Config, rs: seq<Reported>, isMint: bool)
    requires Reads(cfg, []) && PlainReports(rs)
    ensures Judged(cfg, [], Taken(cfg, [], Reading(isMint, rs, [], []))) == Outcome(isMint, FromReports(rs), {})
  {
    var ds := FromReports(rs);
    assert ds + [] == ds;
    NothingDropped(ds);
  }

  /** Without hints and confidences nothing is marked. */
  lemma PlainUnmarked(ds: seq<Defect>)
    requires PlainDefects(ds)
    ensures GroundedMarks(Flattened(Sourced(ds, []))) == ds
  {
    assert Sourced(ds, []) == ds;
    NoSelfReports(ds);
    assert Flattened(ds) == ds;
    NothingInvented(ds);
  }

  predicate PlainDefects(ds: seq<Defect>) {
    forall i :: 0 <= i < |ds| ==> ds[i].bbox == Some(SPOT) && ds[i].imageIndex == Some(0) && ds[i].confidence.None?
  }

  lemma PlainChecked(rs: seq<Reported>, verdicts: seq<Verdict>)
    requires PlainReports(rs) && |verdicts| == |rs| && forall i :: 0 <= i < |rs| ==> verdicts[i] == Yes
    ensures Checked(ONE_SHOT, FromReports(rs), verdicts) == AllSeen(rs)
  {
  }

  lemma PlainScreened(rs: seq<Reported>, verdicts: seq<Verdict>)
    requires PlainReports(rs) && |verdicts| == |rs| && forall i :: 0 <= i < |rs| ==> verdicts[i] == Yes
    ensures Screened(ONE_SHOT, [], verdicts, FromReports(rs)) == AllSeen(rs)
  {
    PlainUnmarked(FromReports(rs));
    PlainChecked(rs, verdicts);
  }

  /** The first call for a book whose only reading is plain, confirmed, and passed by the critic. */
  ghost function PlainCall(rs: seq<Reported>, isMint: bool): Invocation {
    Invocation(ONE_SHOT, INITIAL, [], k => PassOracle(Reading(isMint, rs, [], []), seq(|rs|, _ => Yes), Sound))
  }

  /** The only pass of such a run, up to its score. */
  ghost function PlainPass(rs: seq<Reported>, isMint: bool): State {
    Scored(ONE_SHOT, Begin(PlainCall(rs, isMint)), PlainCall(rs, isMint).oracle(0))
  }

  lemma PlainPassIsScored(rs: seq<Reported>, isMint: bool)
    requires PlainReports(rs)
    ensures var p := PlainPass(rs, isMint);
            && p.score == Some(Score(AllSeen(rs), false)) && p.isMint == Some(isMint) && p.revision == 0 && p.invalid == {}
            && p.defects == Charged(AllSeen(rs), false)
  {
    var s, o := Begin(PlainCall(rs, isMint)), PlainCall(rs, isMint).oracle(0);
    PlainTaken(ONE_SHOT, rs, isMint);
    PlainScreened(rs, o.verdicts);
    ScoredPass(ONE_SHOT, s, o);
    assert PassOutcome(ONE_SHOT, s, o) == Outcome(isMint, AllSeen(rs), {});
  }

  lemma PlainRun(rs: seq<Reported>, isMint: bool)
    requires PlainReports(rs)
    requires var n := Score(AllSeen(rs), false); n != 100 && !(58 <= n <= 66)
    ensures var f := Run(PlainCall(rs, isMint));
            f.score == Some(Score(AllSeen(rs), false)) && f.isMint == Some(isMint)
            && ConvertState(f) == if isMint || f.score.value >= 70 then APPROVE else REJECT
  {
    var p := PlainPass(rs, isMint);
    PlainPassIsScored(rs, isMint);
    PlainIsConsistent(rs, p.score);
    ClearRunEnds(PlainCall(rs, isMint), p);
  }

  /** A first pass without objections is the last, and the run ends with its score. */
  lemma ClearRunEnds(v: Invocation, p: State)
    requires p == Scored(v.cfg, Begin(v), v.oracle(0)) && p.revision == 0 && p.isMint.Some?
    requires Clear(v.cfg, p, v.oracle(0).critic)
    ensures var f := Run(v);
            LastScored(v) == p && f.score == p.score && f.isMint == p.isMint
            && ConvertState(f) == if p.isMint.value || p.score.value >= 70 then APPROVE else REJECT
  {
    ClearIsFinal(v.cfg, p, v.oracle(0).critic);
    EndOfRun(v);
    FinalState(v);
  }

  lemma ClearIsFinal(cfg: Config, p: State, answer: CriticAnswer)
    requires p.revision < 2 && Clear(cfg, p, answer)
    ensures RouteFromSupervisor(Decided(cfg, p, answer)) == ReportNode
  {
  }

  lemma PlainIsConsistent(rs: seq<Reported>, score: Option<int>)
    requires PlainReports(rs) && score.Some? && score.value != 100
    ensures Consistent(Charged(AllSeen(rs), false), 1, score)
  {
    var ds := Charged(AllSeen(rs), false);
    forall d | d in ds
      ensures d.bbox.Some? && !OutOfRange(d, 1) && !d.copied && !d.ungrounded
    {
      var i :| 0 <= i < |ds| && ds[i] == d;
      ChargingKeepsReport(AllSeen(rs), false, i);
    }
  }

  // --- The two gaps between score and decision ----------------------------------------------------------

  /** A soaked book that the vision model also calls mint is scored 0 and approved. */
  lemma MintFlagApprovesSoakedBook()
    ensures var soaked := [Reported("WET", 20, None, false, Some(SPOT), Some(0), None)];
            var f := Run(PlainCall(soaked, true));
            f.score == Some(0) && ConvertState(f) == APPROVE && !DecisionApproves(0)
  {
    var soaked := [Reported("WET", 20, None, false, Some(SPOT), Some(0), None)];
    var d := Seen(soaked[0]);
    assert OccursAt("WET", "WET", 0);
    assert Mentions("WET", ["WET", "WATER", "WARPING", "침수", "휨"][0]);
    assert d.kind.Wet?;
    assert AllSeen(soaked)[0] == d && Fatal(d);
    assert d in AllSeen(soaked);
    PlainRun(soaked, true);
  }

  lemma ThreeFlawsScore()
    ensures Score(AllSeen(THREE_FLAWS), false) == 68
  {
    UnnamedIsOther();
    var ds := AllSeen(THREE_FLAWS);
    var x, y := Seen(UnnamedFlaw(true)), Seen(UnnamedFlaw(false));
    assert ds == [x, x] + [y] && [x, x] == [x] + [x];
    assert Single(x, false) == 12 && Single(y, false) == 8;
    Bags.SumConcat([x, x], [y], Cost(false));
    Bags.SumConcat([x], [x], Cost(false));
    assert Bags.Sum([x], Cost(false)) == 12 && Bags.Sum([y], Cost(false)) == 8 by {
      assert [x][..0] == [] && [y][..0] == [];
    }
    assert !AnyFatal(ds) && !AnyWear(ds);
  }

  const THREE_FLAWS := [UnnamedFlaw(true), UnnamedFlaw(true), UnnamedFlaw(false)]

  /** Three unnamed severe flaws, two of them over text, leave 68 points: a book that the matrix approves and the
      wrapper refuses. */
  lemma SixtyEightPointsAreRefused()
    ensures var f := Run(PlainCall(THREE_FLAWS, false));
            f.score == Some(68) && ConvertState(f) == REJECT && DecisionApproves(68)
  {
    ThreeFlawsScore();
    PlainRun(THREE_FLAWS, false);
  }

  function UnnamedFlaw(textOverlap: bool): Reported {
    Reported("", 20, None, textOverlap, Some(SPOT), Some(0), None)
  }

  lemma UnnamedIsOther()
    ensures Classify("") == Other
  {
    assert forall word: string, i: nat :: |word| > 0 ==> !OccursAt("", word, i);
  }
}
