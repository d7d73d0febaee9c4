/** Books that no vision model has read: the model is not configured, or the batch has no image. */
module UnreadBooks {
  import opened Options
  import opened Decisions
  import opened Defects
  import opened Vision
  import opened VisionLaws
  import opened Inspection
  import opened InspectionLaws
  import opened Scoring
  import opened ScoringLaws
  import Grounding

  // --- Adopted candidates -------------------------------------------------------------------------

  /** The candidate becomes a defect, unless its box is there already. */
  predicate Adoptable(cfg: Config, c: Candidate) {
    cfg.wearAutoAdopt && c.dtype == EDGE_WEAR_CODE && c.bbox.Some?
  }

  /** It lies on a cover, where wear is judged. */
  predicate OnCover(cfg: Config, c: Candidate) {
    Adoptable(cfg, c) && c.imageIndex < TRACK1_IMAGE_COUNT
  }

  /** An adopted candidate before the policy has charged it. */
  predicate Adoptee(d: Defect) {
    && d.adopted && d.dtype == EDGE_WEAR_CODE && d.kind == Classify(EDGE_WEAR_CODE)
    && d.bbox.Some? && d.imageIndex.Some? && !d.suspect && !d.copied && !d.ungrounded
  }

  predicate ComesFrom(cfg: Config, cs: seq<Candidate>, d: Defect) {
    Adoptee(d) && exists c :: c in cs && Adoptable(cfg, c) && Some(c.imageIndex) == d.imageIndex
  }

  predicate AllComeFrom(cfg: Config, cs: seq<Candidate>, ds: seq<Defect>) {
    forall d :: d in ds ==> ComesFrom(cfg, cs, d)
  }

  predicate HasShot(ds: seq<Defect>, n: int) {
    exists d :: d in ds && Grounding.Shot(d) == n
  }

  predicate NothingAdoptable(cfg: Config, cs: seq<Candidate>) {
    forall c :: c in cs ==> !Adoptable(cfg, c)
  }

  predicate ShotsCovered(cfg: Config, cs: seq<Candidate>, ds: seq<Defect>) {
    forall c :: c in cs && Adoptable(cfg, c) ==> HasShot(ds, c.imageIndex)
  }

  /** One turn of the adoption. */
  lemma AdoptOne(cfg: Config, ds: seq<Defect>, rest: seq<Candidate>, c: Candidate)
    requires cfg.wearAutoAdopt
    ensures var before, after := AdoptAll(ds, rest), AdoptAll(ds, rest + [c]);
            && before <= after && |after| <= |before| + 1
            && (Adoptable(cfg, c) ==> HasShot(after, c.imageIndex)) && (!Adoptable(cfg, c) ==> after == before)
  {
    var before, after := AdoptAll(ds, rest), AdoptAll(ds, rest + [c]);
    assert (rest + [c])[..|rest|] == rest && (rest + [c])[|rest|] == c;
    if Adoptable(cfg, c) && !AlreadyReported(before, c) {
      assert after[|before|] in after && Grounding.Shot(after[|before|]) == c.imageIndex;
    }
  }

  lemma StillCovered(cfg: Config, rest: seq<Candidate>, c: Candidate, before: seq<Defect>, after: seq<Defect>)
    requires ShotsCovered(cfg, rest, before) && before <= after
    requires Adoptable(cfg, c) ==> HasShot(after, c.imageIndex)
    ensures ShotsCovered(cfg, rest + [c], after)
  {
    assert forall d :: d in before ==> d in after;
    forall x | x in rest + [c] && Adoptable(cfg, x)
      ensures HasShot(after, x.imageIndex)
    {
      if x in rest {
        var d :| d in before && Grounding.Shot(d) == x.imageIndex;
        assert d in after;
      }
    }
  }

  /** Every adoptable candidate has a defect in its shot. */
  lemma {:induction false} AdoptionCovers(cfg: Config, ds: seq<Defect>, cs: seq<Candidate>)
    requires cfg.wearAutoAdopt
    ensures ShotsCovered(cfg, cs, AdoptAll(ds, cs))
    ensures |AdoptAll(ds, cs)| >= |ds| && (|AdoptAll(ds, cs)| > |ds| ==> !NothingAdoptable(cfg, cs))
    ensures NothingAdoptable(cfg, cs) ==> AdoptAll(ds, cs) == ds
  {
    if cs == [] {
    } else {
      var rest, c := cs[..|cs| - 1], cs[|cs| - 1];
      assert cs == rest + [c];
      AdoptionCovers(cfg, ds, rest);
      AdoptOne(cfg, ds, rest, c);
      StillCovered(cfg, rest, c, AdoptAll(ds, rest), AdoptAll(ds, cs));
      MoreToAdopt(cfg, rest, c);
    }
  }

  lemma MoreToAdopt(cfg: Config, rest: seq<Candidate>, c: Candidate)
    ensures NothingAdoptable(cfg, rest + [c]) <==> NothingAdoptable(cfg, rest) && !Adoptable(cfg, c)
  {
    assert c in rest + [c];
    assert forall x :: x in rest ==> x in rest + [c];
  }

  lemma {:induction false} AdoptionComesFrom(cfg: Config, ds: seq<Defect>, cs: seq<Candidate>, all: seq<Candidate>)
    requires cfg.wearAutoAdopt && AllComeFrom(cfg, all, ds) && forall c :: c in cs ==> c in all
    ensures AllComeFrom(cfg, all, AdoptAll(ds, cs))
  {
    if cs == [] {
    } else {
      AdoptionComesFrom(cfg, ds, cs[..|cs| - 1], all);
    }
  }

  /** The screening leaves an adopted candidate as it is, but for its source and confidence. */
  lemma AdopteesAreUnmarked(cfg: Config, cs: seq<Candidate>, verdicts: seq<Verdict>, ds: seq<Defect>)
    requires !Reads(cfg, []) && forall d :: d in ds ==> Adoptee(d)
    ensures var out := Screened(cfg, cs, verdicts, ds);
            |out| == |ds| && forall i :: 0 <= i < |ds| ==> Adoptee(out[i]) && out[i].imageIndex == ds[i].imageIndex
  {
    var s := Sourced(ds, cs);
    forall i | 0 <= i < |s|
      ensures Adoptee(s[i]) && s[i].imageIndex == ds[i].imageIndex
    {
      assert ds[i] in ds;
    }
    NoSelfReportOfAdoptees(s);
    assert Flattened(s) == s;
    assert Grounding.UngroundedPositions(s) == {};
    assert GroundedMarks(s) == s;
  }

  lemma {:induction false} NoSelfReportOfAdoptees(ds: seq<Defect>)
    requires forall i :: 0 <= i < |ds| ==> ds[i].adopted
    ensures SelfReports(ds) == []
  {
    if ds == [] {
    } else {
      NoSelfReportOfAdoptees(ds[..|ds| - 1]);
    }
  }

  /** A defect for every shot with an adoptable candidate on a cover, and no other. */
  predicate CoversShots(cfg: Config, cs: seq<Candidate>, ds: seq<Defect>) {
    && AllComeFrom(cfg, cs, ds) && (forall d :: d in ds ==> d.imageIndex.value < TRACK1_IMAGE_COUNT)
    && forall c :: c in cs && OnCover(cfg, c) ==> HasShot(ds, c.imageIndex)
  }

  lemma CoverWearStays(cfg: Config, cs: seq<Candidate>, adopted: seq<Defect>)
    requires AllComeFrom(cfg, cs, adopted)
    requires ShotsCovered(cfg, cs, adopted)
    ensures CoversShots(cfg, cs, WithoutInnerWear(adopted))
  {
    InnerWearIsGone(adopted);
    forall c | c in cs && OnCover(cfg, c)
      ensures HasShot(WithoutInnerWear(adopted), c.imageIndex)
    {
      var d :| d in adopted && Grounding.Shot(d) == c.imageIndex;
      assert ComesFrom(cfg, cs, d);
    }
  }

  function Adopted(cfg: Config, cs: seq<Candidate>, before: seq<Defect>): seq<Defect> {
    if cfg.wearAutoAdopt then AdoptAll(before, cs) else before
  }

  lemma AdoptionLaws(cfg: Config, cs: seq<Candidate>, before: seq<Defect>)
    requires AllComeFrom(cfg, cs, before)
    ensures var adopted := Adopted(cfg, cs, before);
            && AllComeFrom(cfg, cs, adopted) && |adopted| >= |before|
            && (|adopted| > |before| ==> !NothingAdoptable(cfg, cs))
            && ShotsCovered(cfg, cs, adopted)
  {
    if cfg.wearAutoAdopt {
      AdoptionCovers(cfg, before, cs);
      AdoptionComesFrom(cfg, before, cs, cs);
    }
  }

  /** What a vision step that does not read adopts; the book is mint exactly if nothing is adoptable. */
  lemma UnreadJudged(cfg: Config, cs: seq<Candidate>, before: seq<Defect>, answer: VlmAnswer)
    requires !Reads(cfg, []) && AllComeFrom(cfg, cs, before)
    ensures var j := Judged(cfg, cs, Taken(cfg, before, answer));
            j.invalid == {} && (j.isMint <==> NothingAdoptable(cfg, cs)) && CoversShots(cfg, cs, j.defects)
  {
    var adopted := Adopted(cfg, cs, before);
    AdoptionLaws(cfg, cs, before);
    CoverWearStays(cfg, cs, adopted);
    MintUnlessAdoptable(cfg, cs, before, adopted);
    JudgedUnread(cfg, cs, before, answer);
  }

  lemma JudgedUnread(cfg: Config, cs: seq<Candidate>, before: seq<Defect>, answer: VlmAnswer)
    requires !Reads(cfg, [])
    ensures var adopted := Adopted(cfg, cs, before);
            Judged(cfg, cs, Taken(cfg, before, answer))
              == Outcome(before == [] && |adopted| == |before|, WithoutInnerWear(adopted), {})
  {
  }

  lemma UnreadLook(cfg: Config, cs: seq<Candidate>, before: seq<Defect>, answer: VlmAnswer, verdicts: seq<Verdict>)
    requires !Reads(cfg, []) && AllComeFrom(cfg, cs, before)
    ensures var out := Looked(cfg, cs, before, answer, verdicts);
            out.invalid == {} && (out.isMint <==> NothingAdoptable(cfg, cs)) && CoversShots(cfg, cs, out.defects)
  {
    UnreadJudged(cfg, cs, before, answer);
    ScreenedCoversShots(cfg, cs, verdicts, Judged(cfg, cs, Taken(cfg, before, answer)).defects);
  }

  lemma ScreenedCoversShots(cfg: Config, cs: seq<Candidate>, verdicts: seq<Verdict>, ds: seq<Defect>)
    requires !Reads(cfg, []) && CoversShots(cfg, cs, ds)
    ensures CoversShots(cfg, cs, Screened(cfg, cs, verdicts, ds))
  {
    AdopteesAreUnmarked(cfg, cs, verdicts, ds);
    UnreadShots(cfg, cs, ds, Screened(cfg, cs, verdicts, ds));
  }

  lemma MintUnlessAdoptable(cfg: Config, cs: seq<Candidate>, before: seq<Defect>, adopted: seq<Defect>)
    requires AllComeFrom(cfg, cs, before)
    requires |adopted| >= |before| && (|adopted| > |before| ==> !NothingAdoptable(cfg, cs))
    requires ShotsCovered(cfg, cs, adopted)
    ensures (before == [] && |adopted| == |before|) <==> NothingAdoptable(cfg, cs)
  {
    if before != [] {
      assert ComesFrom(cfg, cs, before[0]);
    }
  }

  lemma UnreadShots(cfg: Config, cs: seq<Candidate>, ds: seq<Defect>, out: seq<Defect>)
    requires CoversShots(cfg, cs, ds) && |out| == |ds|
    requires forall i :: 0 <= i < |ds| ==> Adoptee(out[i]) && out[i].imageIndex == ds[i].imageIndex
    ensures CoversShots(cfg, cs, out)
  {
    forall i | 0 <= i < |out|
      ensures ComesFrom(cfg, cs, out[i]) && out[i].imageIndex.value < TRACK1_IMAGE_COUNT
    {
      assert ds[i] in ds;
    }
    forall c | c in cs && OnCover(cfg, c)
      ensures HasShot(out, c.imageIndex)
    {
      var i :| 0 <= i < |ds| && ds[i].imageIndex == Some(c.imageIndex);
      assert out[i] in out;
    }
  }

  // --- Their score ----------------------------------------------------------------------------------

  /** The code has one W, and EA follows. */
  lemma OnlyWear(word: string, i: nat)
    requires |word| >= 3 && word[0] == 'W' && !(word[1] == 'E' && word[2] == 'A')
    ensures !OccursAt(EDGE_WEAR_CODE, word, i)
  {
    LetterOf(EDGE_WEAR_CODE, word, i, 0);
    LetterOf(EDGE_WEAR_CODE, word, i, 1);
    LetterOf(EDGE_WEAR_CODE, word, i, 2);
  }

  lemma OnlyLatin(word: string, i: nat)
    requires |word| >= 1 && word[0] !in EDGE_WEAR_CODE
    ensures !OccursAt(EDGE_WEAR_CODE, word, i)
  {
    LetterOf(EDGE_WEAR_CODE, word, i, 0);
  }

  lemma EdgeWearIsDry(i: nat)
    ensures !OccursAt(EDGE_WEAR_CODE, "WET", i) && !OccursAt(EDGE_WEAR_CODE, "WATER", i) && !OccursAt(EDGE_WEAR_CODE, "WARPING", i)
    ensures !OccursAt(EDGE_WEAR_CODE, "침수", i) && !OccursAt(EDGE_WEAR_CODE, "휨", i)
  {
    OnlyWear("WET", i);
    OnlyWear("WATER", i);
    OnlyWear("WARPING", i);
    OnlyLatin("침수", i);
    OnlyLatin("휨", i);
  }

  lemma EdgeWearIsWear()
    ensures Classify(EDGE_WEAR_CODE).Wear?
  {
    var code := EDGE_WEAR_CODE;
    assert code[9..13] == "WEAR";
    assert OccursAt(code, "WEAR", 9);
    assert Mentions(code, ["WEAR", "마모"][0]);
    var wet := ["WET", "WATER", "WARPING", "침수", "휨"];
    forall k | 0 <= k < |wet|
      ensures !Mentions(code, wet[k])
    {
      forall i: nat
        ensures !OccursAt(code, wet[k], i)
      {
        EdgeWearIsDry(i);
      }
    }
  }

  lemma LetterOf(text: string, word: string, i: nat, k: nat)
    requires k < |word|
    ensures OccursAt(text, word, i) ==> i + k < |text| && text[i + k] == word[k]
  {
    if OccursAt(text, word, i) {
      assert text[i..i + |word|][k] == text[i + k];
    }
  }

  lemma AdopteesScore(ds: seq<Defect>, workbook: bool)
    requires forall d :: d in ds ==> Adoptee(d)
    ensures 85 <= Score(ds, workbook) <= 100 && (Score(ds, workbook) == 100 <==> ds == [])
    ensures ds != [] ==> Score(ds, workbook) <= 97
  {
    EdgeWearIsWear();
    CapsKeepTheBook(ds, workbook);
    PerfectScore(ds, workbook);
    if ds != [] {
      assert ds[0] in ds;
    }
  }

  // --- One pass, and the run ------------------------------------------------------------------------

  /** A defect of the pass lies outside the batch. */
  predicate CoverOutside(v: Invocation) {
    v.cfg.imageCount > 0 && exists c :: c in v.candidates && OnCover(v.cfg, c) && !(0 <= c.imageIndex < v.cfg.imageCount)
  }

  predicate AnyOnCover(v: Invocation) {
    exists c :: c in v.candidates && OnCover(v.cfg, c)
  }

  /** A state between passes of such a run. */
  predicate UnreadEntry(v: Invocation, s: State) {
    s.candidates == v.candidates && AllComeFrom(v.cfg, v.candidates, s.defects)
  }

  lemma UnreadPass(v: Invocation, s: State, o: PassOracle)
    requires !Reads(v.cfg, []) && UnreadEntry(v, s) && !s.visionFailed
    ensures var p := Scored(v.cfg, s, o);
            && p.isMint == Some(NothingAdoptable(v.cfg, v.candidates)) && p.score.Some? && 85 <= p.score.value <= 100
            && (p.score == Some(100) <==> !AnyOnCover(v)) && (p.defects == [] <==> !AnyOnCover(v))
            && (Consistent(p.defects, v.cfg.imageCount, p.score) <==> !CoverOutside(v))
            && !NothingReadable(v.cfg, p) && !OnBoundary(p.score)
  {
    UnreadLook(v.cfg, s.candidates, s.defects, o.vlm, o.verdicts);
    ScoredPass(v.cfg, s, o);
    var ds := PassOutcome(v.cfg, s, o).defects;
    AdopteesScore(ds, v.cfg.workbook);
    UnreadIsConsistent(v, ds);
    SomeOnCover(v, ds);
  }

  lemma SomeOnCover(v: Invocation, ds: seq<Defect>)
    requires CoversShots(v.cfg, v.candidates, ds)
    ensures ds == [] <==> !AnyOnCover(v)
  {
    if ds != [] {
      assert ComesFrom(v.cfg, v.candidates, ds[0]);
    }
  }

  lemma UnreadIsConsistent(v: Invocation, ds: seq<Defect>)
    requires CoversShots(v.cfg, v.candidates, ds)
    ensures Consistent(Charged(ds, v.cfg.workbook), v.cfg.imageCount, Some(Score(ds, v.cfg.workbook))) <==> !CoverOutside(v)
  {
    var out := Charged(ds, v.cfg.workbook);
    AdopteesScore(ds, v.cfg.workbook);
    assert |out| == |ds|;
    forall i | 0 <= i < |ds|
      ensures out[i] == ds[i].(charge := out[i].charge)
    {
      ChargingKeepsReport(ds, v.cfg.workbook, i);
    }
    OutsideDecides(v, ds, out, Score(ds, v.cfg.workbook));
  }

  lemma OutsideDecides(v: Invocation, ds: seq<Defect>, out: seq<Defect>, score: int)
    requires CoversShots(v.cfg, v.candidates, ds) && |out| == |ds|
    requires forall i :: 0 <= i < |ds| ==> out[i] == ds[i].(charge := out[i].charge)
    requires score == 100 <==> ds == []
    ensures Consistent(out, v.cfg.imageCount, Some(score)) <==> !CoverOutside(v)
  {
    if CoverOutside(v) {
      var c :| c in v.candidates && OnCover(v.cfg, c) && !(0 <= c.imageIndex < v.cfg.imageCount);
      var i :| 0 <= i < |ds| && ds[i].imageIndex == Some(c.imageIndex);
      assert out[i] in out && OutOfRange(out[i], v.cfg.imageCount);
    } else {
      forall i | 0 <= i < |out|
        ensures out[i].bbox.Some? && !OutOfRange(out[i], v.cfg.imageCount) && !out[i].copied && !out[i].ungrounded
      {
        assert ds[i] in ds;
        assert ComesFrom(v.cfg, v.candidates, ds[i]);
      }
    }
  }

  lemma UnreadPassGoesOn(v: Invocation, s: State, o: PassOracle)
    requires !Reads(v.cfg, []) && UnreadEntry(v, s) && s.defects == []
    requires RouteFromSupervisor(Pass(v.cfg, s, o)) == VisionNode
    ensures UnreadEntry(v, Pass(v.cfg, s, o)) && !Pass(v.cfg, s, o).visionFailed
  {
    RetryCanRead(v.cfg, s, o);
    UnreadLook(v.cfg, s.candidates, s.defects, o.vlm, o.verdicts);
    PassKeepsCandidates(v.cfg, s, o);
  }

  /** Whatever the models answer and the checkpoint holds, an unread book is approved, with a refund exactly if no wear
      candidate is adopted, and at 100 points exactly if none is adopted on a cover; otherwise it keeps 85. It goes to a
      human only for an adopted box outside the batch, or where the critic objects to adopted boxes without images. */
  lemma UnreadBook(v: Invocation)
    requires !Reads(v.cfg, [])
    ensures var f := Run(v);
            && (ConvertState(f) == HITL <==> CoverOutside(v) || (v.cfg.llmAvailable && AnyOnCover(v) && LastAnswer(v) == Unsound))
            && (ConvertState(f) != HITL ==>
                  && ConvertState(f) == APPROVE && f.score.Some? && 85 <= f.score.value <= 100
                  && (f.score == Some(100) <==> !AnyOnCover(v)) && f.autoRefund == Some(NothingAdoptable(v.cfg, v.candidates)))
            && (ConvertState(f) == HITL ==> f.autoRefund == v.before.autoRefund)
            && LastScored(v).score.Some?
  {
    var s0 := Begin(v);
    if RouteFromSupervisor(FirstPass(v)) == VisionNode {
      UnreadPassGoesOn(v, s0, v.oracle(0));
    } else {
      LastIsUnmarked(v);
    }
    UnreadPass(v, LastPass(v).entry, v.oracle(LastPass(v).k));
    EndOfRun(v);
    FinalState(v);
  }

  lemma LastIsUnmarked(v: Invocation)
    requires !Reads(v.cfg, []) && RouteFromSupervisor(FirstPass(v)) != VisionNode
    ensures !v.before.visionFailed
  {
    if v.before.visionFailed {
      UnscoredPass(v.cfg, Begin(v), v.oracle(0));
      ReadingSetsInvalid(v.cfg, Begin(v), v.oracle(0));
      MarkedIsSentBack(v.cfg, Begin(v), v.oracle(0));
    }
  }

  /** With the candidates that the detector can find, every unread book is approved, and on 100 points with a refund where
      nothing is adopted. */
  lemma UnreadBookIsApproved(v: Invocation)
    requires !Reads(v.cfg, [])
    requires forall c :: c in v.candidates ==> 0 <= c.imageIndex < 3 && c.imageIndex < v.cfg.imageCount
    ensures ConvertState(Run(v)) == APPROVE && Run(v).score.Some? && 85 <= Run(v).score.value <= 100
    ensures NothingAdoptable(v.cfg, v.candidates) <==> Run(v).score == Some(100)
    ensures Run(v).autoRefund == Some(NothingAdoptable(v.cfg, v.candidates))
    ensures !v.cfg.wearAutoAdopt || v.cfg.imageCount == 0 ==> NothingAdoptable(v.cfg, v.candidates)
  {
    UnreadBook(v);
    if AnyOnCover(v) {
      var c :| c in v.candidates && OnCover(v.cfg, c);
      assert v.cfg.imageCount > 0;
    }
    if !NothingAdoptable(v.cfg, v.candidates) {
      var c :| c in v.candidates && Adoptable(v.cfg, c);
      assert OnCover(v.cfg, c);
    }
  }

  /** Nothing that an unread book stores was dismissed: there is no check. */
  lemma UnreadIsUndismissed(v: Invocation)
    requires !Reads(v.cfg, [])
    ensures forall d :: d in Run(v).defects ==> !d.suspect
  {
    var s, o := LastPass(v).entry, v.oracle(LastPass(v).k);
    if RouteFromSupervisor(FirstPass(v)) == VisionNode {
      UnreadPassGoesOn(v, Begin(v), v.oracle(0));
    } else {
      LastIsUnmarked(v);
    }
    UnreadLook(v.cfg, s.candidates, s.defects, o.vlm, o.verdicts);
    ScoredPass(v.cfg, s, o);
    FinalState(v);
    ChargedUndismissed(PassOutcome(v.cfg, s, o).defects, v.cfg.workbook);
  }

  lemma ChargedUndismissed(ds: seq<Defect>, workbook: bool)
    requires forall d :: d in ds ==> !d.suspect
    ensures forall d :: d in Charged(ds, workbook) ==> !d.suspect
  {
    forall d | d in Charged(ds, workbook)
      ensures !d.suspect
    {
      var i :| 0 <= i < |ds| && Charged(ds, workbook)[i] == d;
      ChargingKeepsReport(ds, workbook, i);
      assert ds[i] in ds;
    }
  }

  // --- When decisions rest on a reading ------------------------------------------------------------

  /** The stated rule: nothing is decided automatically that was not inspected. */
  ghost predicate OnlyInspectedBooksDecided(cfg: Config) {
    forall before, candidates, oracle: nat -> PassOracle :: RuleKept(Invocation(cfg, before, candidates, oracle))
  }

  ghost predicate RuleKept(v: Invocation) {
    ConvertState(Run(v)) != HITL ==> Reads(v.cfg, []) && Backs(v.cfg, v.oracle(ReadingPass(v)))
  }

  /** The rule holds exactly where a vision model is configured and the batch has an image. */
  lemma RuleNeedsModelAndImages(cfg: Config)
    ensures OnlyInspectedBooksDecided(cfg) <==> cfg.llmAvailable && cfg.imageCount > 0
  {
    if Reads(cfg, []) {
      forall before, candidates, oracle: nat -> PassOracle
        ensures RuleKept(Invocation(cfg, before, candidates, oracle))
      {
        AutomaticDecisionsAreBacked(Invocation(cfg, before, candidates, oracle));
      }
    } else {
      var v := Invocation(cfg, INITIAL, [], k => PassOracle(Failure, [], NoAnswer));
      UnreadBookIsApproved(v);
      assert v == Invocation(cfg, v.before, v.candidates, v.oracle) && !RuleKept(v);
    }
  }
}
