/**
 What becomes of a reading, in the words of the models' answers: which reports, scribbles and candidates are stored, when
 a book is mint, and what the evidence check dismisses (app/ai/agents/vision.py).
 */
module Readings {
  import opened Options
  import opened Defects
  import opened Geometry
  import opened Vision
  import opened VisionLaws
  import Grounding

  // --- Where stored defects come from ------------------------------------------------------------

  /** The defect says what the report says, with the limits of its box in order. */
  predicate SaysWhat(d: Defect, r: Reported) {
    && d.dtype == r.dtype && d.kind == Classify(r.dtype) && d.ratio == r.ratio && d.level == r.level
    && d.textOverlap == r.textOverlap && d.imageIndex == r.imageIndex && d.pages == 1 && !d.adopted
    && (d.bbox.Some? <==> r.bbox.Some?)
    && (d.bbox.Some? ==>
          && AxisOrdered((r.bbox.value.xmin, r.bbox.value.xmax), (d.bbox.value.xmin, d.bbox.value.xmax))
          && AxisOrdered((r.bbox.value.ymin, r.bbox.value.ymax), (d.bbox.value.ymin, d.bbox.value.ymax)))
  }

  predicate IsScribble(d: Defect, h: DoodleHit) {
    && d.dtype == "DMG_INT_DOODLE" && d.imageIndex == Some(h.imageIndex) && d.bbox == Some(h.bbox) && !d.adopted
    && d.ratio >= 1 && (d.ratio == h.ratio || (d.ratio == 1 && h.ratio < 1)) && d.level == None && d.pages == 1 && !d.textOverlap
  }

  predicate IsAdopted(d: Defect, c: Candidate) {
    && d.adopted && d.dtype == "DMG_EDGE_WEAR" && d.imageIndex == Some(c.imageIndex) && d.bbox == c.bbox && d.ratio == 0
  }

  /** The shot is in the batch, and the reading does not call it unreadable. */
  predicate InReadableShot(cfg: Config, answer: VlmAnswer, shot: int)
    requires answer.Reading?
  {
    0 <= shot < cfg.imageCount && shot !in answer.invalid
  }

  /** A wear candidate with a place. */
  predicate WearCandidate(c: Candidate) {
    c.dtype == "DMG_EDGE_WEAR" && c.bbox.Some?
  }

  ghost predicate HasOrigin(cfg: Config, cs: seq<Candidate>, answer: VlmAnswer, d: Defect)
    requires answer.Reading?
  {
    || (exists r :: r in answer.reported && SaysWhat(d, r))
    || (exists h :: h in answer.doodles && InReadableShot(cfg, answer, h.imageIndex) && IsScribble(d, h))
    || (cfg.wearAutoAdopt && exists c :: c in cs && WearCandidate(c) && IsAdopted(d, c))
  }

  lemma ReportSays(r: Reported)
    ensures SaysWhat(FromReport(r), r)
  {
    if r.bbox.Some? {
      NormalizedBoxIsOrdered(r.bbox.value);
    }
  }

  lemma SameReportSays(d: Defect, e: Defect, r: Reported)
    requires SameReport(d, e) && SaysWhat(e, r)
    ensures SaysWhat(d, r)
  {
  }

  ghost predicate FromReadable(cfg: Config, answer: VlmAnswer, hits: seq<DoodleHit>, d: Defect)
    requires answer.Reading?
  {
    exists h :: h in hits && InReadableShot(cfg, answer, h.imageIndex) && d == FromHit(h)
  }

  /** Exactly the scribbles in readable shots of the batch are taken. */
  lemma {:induction false} ScribblesAre(cfg: Config, answer: VlmAnswer, hits: seq<DoodleHit>, d: Defect)
    requires answer.Reading?
    ensures d in FromHits(cfg, InvalidShots(cfg, answer.invalid), hits) <==> FromReadable(cfg, answer, hits, d)
  {
    if hits == [] {
    } else {
      var n := |hits| - 1;
      ScribblesAre(cfg, answer, hits[..n], d);
      assert hits == hits[..n] + [hits[n]];
      assert forall h :: h in hits <==> h in hits[..n] || h == hits[n];
      assert ReadableHit(cfg, InvalidShots(cfg, answer.invalid), hits[n]) <==> InReadableShot(cfg, answer, hits[n].imageIndex);
    }
  }

  lemma HitIsScribble(h: DoodleHit)
    ensures IsScribble(FromHit(h), h)
  {
  }

  ghost predicate FromCandidate(cs: seq<Candidate>, d: Defect) {
    exists c :: c in cs && WearCandidate(c) && IsAdopted(d, c)
  }

  lemma {:induction false} AdoptedAre(ds: seq<Defect>, cs: seq<Candidate>, d: Defect)
    ensures ds <= AdoptAll(ds, cs)
    ensures d in AdoptAll(ds, cs) ==> d in ds || FromCandidate(cs, d)
  {
    if cs == [] {
    } else {
      var n := |cs| - 1;
      AdoptedAre(ds, cs[..n], d);
      assert cs == cs[..n] + [cs[n]];
      assert forall c :: c in cs <==> c in cs[..n] || c == cs[n];
      if d in AdoptAll(ds, cs) && d !in AdoptAll(ds, cs[..n]) {
        assert IsAdopted(d, cs[n]);
      }
    }
  }

  lemma TakenHasOrigin(cfg: Config, cs: seq<Candidate>, answer: VlmAnswer, d: Defect)
    requires Reads(cfg, []) && answer.Reading? && d in Taken(cfg, [], answer).defects
    ensures HasOrigin(cfg, cs, answer, d)
  {
    ScribblesAre(cfg, answer, answer.doodles, d);
    if d in FromReports(answer.reported) {
      var i :| 0 <= i < |answer.reported| && d == FromReport(answer.reported[i]);
      ReportSays(answer.reported[i]);
    } else {
      var h :| h in answer.doodles && InReadableShot(cfg, answer, h.imageIndex) && d == FromHit(h);
      HitIsScribble(h);
    }
  }

  lemma JudgedHasOrigin(cfg: Config, cs: seq<Candidate>, answer: VlmAnswer, d: Defect)
    requires Reads(cfg, []) && answer.Reading? && d in Judged(cfg, cs, Taken(cfg, [], answer)).defects
    ensures HasOrigin(cfg, cs, answer, d)
  {
    var taken := Taken(cfg, [], answer);
    InnerWearIsGone(if cfg.wearAutoAdopt then AdoptAll(taken.defects, cs) else taken.defects);
    AdoptedAre(taken.defects, cs, d);
    if d in taken.defects {
      TakenHasOrigin(cfg, cs, answer, d);
    }
  }

  lemma SameReportSameOrigin(cfg: Config, cs: seq<Candidate>, answer: VlmAnswer, d: Defect, e: Defect)
    requires answer.Reading? && SameReport(d, e) && HasOrigin(cfg, cs, answer, e)
    ensures HasOrigin(cfg, cs, answer, d)
  {
    if r :| r in answer.reported && SaysWhat(e, r) {
      SameReportSays(d, e, r);
    } else if h :| h in answer.doodles && InReadableShot(cfg, answer, h.imageIndex) && IsScribble(e, h) {
      assert IsScribble(d, h);
    } else {
      var c :| c in cs && WearCandidate(c) && IsAdopted(e, c);
      assert IsAdopted(d, c);
    }
  }

  /** Every defect after a reading was reported, or is a scribble in a readable shot, or an adopted candidate; and none is
      wear of an inner page. */
  lemma DefectsHaveOrigins(cfg: Config, cs: seq<Candidate>, answer: VlmAnswer, verdicts: seq<Verdict>)
    requires Reads(cfg, []) && answer.Reading?
    ensures forall d :: d in Looked(cfg, cs, [], answer, verdicts).defects ==>
              HasOrigin(cfg, cs, answer, d) && !(d.dtype == "DMG_EDGE_WEAR" && d.imageIndex.Some? && d.imageIndex.value >= 3)
  {
    var ds := Judged(cfg, cs, Taken(cfg, [], answer)).defects;
    var out := Screened(cfg, cs, verdicts, ds);
    ScreeningKeepsReports(cfg, cs, verdicts, ds);
    ReadingIsFresh(cfg, cs, answer);
    forall i | 0 <= i < |out|
      ensures HasOrigin(cfg, cs, answer, out[i])
      ensures !(out[i].dtype == "DMG_EDGE_WEAR" && out[i].imageIndex.Some? && out[i].imageIndex.value >= 3)
    {
      assert ds[i] in ds && SameReport(out[i], ds[i]);
      JudgedHasOrigin(cfg, cs, answer, ds[i]);
      SameReportSameOrigin(cfg, cs, answer, out[i], ds[i]);
    }
  }

  lemma TakenIsStored(cfg: Config, cs: seq<Candidate>, answer: VlmAnswer, verdicts: seq<Verdict>, e: Defect)
    requires Reads(cfg, []) && answer.Reading? && e in Taken(cfg, [], answer).defects
    requires !(e.dtype == "DMG_EDGE_WEAR" && e.imageIndex.Some? && e.imageIndex.value >= 3)
    ensures exists d :: d in Looked(cfg, cs, [], answer, verdicts).defects && SameReport(d, e)
  {
    var taken := Taken(cfg, [], answer);
    var ds := Judged(cfg, cs, taken).defects;
    InnerWearIsGone(if cfg.wearAutoAdopt then AdoptAll(taken.defects, cs) else taken.defects);
    AdoptedAre(taken.defects, cs, e);
    assert e in ds by {
      var i :| 0 <= i < |taken.defects| && taken.defects[i] == e;
      assert cfg.wearAutoAdopt ==> AdoptAll(taken.defects, cs)[i] == e;
    }
    ScreeningKeepsReports(cfg, cs, verdicts, ds);
    var i :| 0 <= i < |ds| && ds[i] == e;
    assert Screened(cfg, cs, verdicts, ds)[i] in Looked(cfg, cs, [], answer, verdicts).defects;
  }

  /** Nothing is lost: every report but wear of an inner page is stored, and every scribble in a readable shot. */
  lemma ReportsAreStored(cfg: Config, cs: seq<Candidate>, answer: VlmAnswer, verdicts: seq<Verdict>)
    requires Reads(cfg, []) && answer.Reading?
    ensures var out := Looked(cfg, cs, [], answer, verdicts).defects;
            && (forall r :: r in answer.reported && !(r.dtype == "DMG_EDGE_WEAR" && r.imageIndex.Some? && r.imageIndex.value >= 3) ==>
                  exists d :: d in out && SaysWhat(d, r))
            && (forall h :: h in answer.doodles && InReadableShot(cfg, answer, h.imageIndex) ==> exists d :: d in out && IsScribble(d, h))
  {
    var out := Looked(cfg, cs, [], answer, verdicts).defects;
    forall r | r in answer.reported && !(r.dtype == "DMG_EDGE_WEAR" && r.imageIndex.Some? && r.imageIndex.value >= 3)
      ensures exists d :: d in out && SaysWhat(d, r)
    {
      ReportSays(r);
      var i :| 0 <= i < |answer.reported| && answer.reported[i] == r;
      assert FromReports(answer.reported)[i] == FromReport(r);
      TakenIsStored(cfg, cs, answer, verdicts, FromReport(r));
      var d :| d in out && SameReport(d, FromReport(r));
      SameReportSays(d, FromReport(r), r);
    }
    forall h | h in answer.doodles && InReadableShot(cfg, answer, h.imageIndex)
      ensures exists d :: d in out && IsScribble(d, h)
    {
      HitIsScribble(h);
      ScribblesAre(cfg, answer, answer.doodles, FromHit(h));
      TakenIsStored(cfg, cs, answer, verdicts, FromHit(h));
      var d :| d in out && SameReport(d, FromHit(h));
      assert IsScribble(d, h);
    }
  }

  // --- The order of the list ---------------------------------------------------------------------------

  /** Nothing has been settled, checked or marked yet. */
  predicate Unjudged(d: Defect) {
    d.source == NoSource && d.verify == NotVerified && !d.copied && !d.ungrounded && !d.suspect && d.charge == UNCHARGED
  }

  /** The reading begins with the reports in their order, with their confidences; the scribbles follow. */
  lemma ReportsComeInOrder(cfg: Config, answer: VlmAnswer)
    requires Reads(cfg, []) && answer.Reading?
    ensures var ds := Taken(cfg, [], answer).defects;
            && |ds| >= |answer.reported|
            && (forall i :: 0 <= i < |answer.reported| ==>
                  SaysWhat(ds[i], answer.reported[i]) && ds[i].confidence == answer.reported[i].confidence && Unjudged(ds[i]))
            && (forall i :: |answer.reported| <= i < |ds| ==>
                  Unjudged(ds[i]) && exists h :: h in answer.doodles && IsScribble(ds[i], h) && ds[i].confidence == h.confidence)
  {
    var ds, n := Taken(cfg, [], answer).defects, |answer.reported|;
    forall i | 0 <= i < n
      ensures SaysWhat(ds[i], answer.reported[i]) && ds[i].confidence == answer.reported[i].confidence && Unjudged(ds[i])
    {
      ReportSays(answer.reported[i]);
      assert ds[i] == FromReport(answer.reported[i]);
    }
    var hits := FromHits(cfg, InvalidShots(cfg, answer.invalid), answer.doodles);
    forall i | n <= i < |ds|
      ensures Unjudged(ds[i]) && exists h :: h in answer.doodles && IsScribble(ds[i], h) && ds[i].confidence == h.confidence
    {
      assert ds[i] == hits[i - n] && hits[i - n] in hits;
      ScribblesAre(cfg, answer, answer.doodles, ds[i]);
      var h :| h in answer.doodles && ds[i] == FromHit(h);
      HitIsScribble(h);
    }
  }

  /** Scribbles keep their order, however the list is divided. */
  lemma {:induction false} ScribblesComeInOrder(cfg: Config, invalid: set<int>, a: seq<DoodleHit>, b: seq<DoodleHit>)
    ensures FromHits(cfg, invalid, a + b) == FromHits(cfg, invalid, a) + FromHits(cfg, invalid, b)
  {
    if b == [] {
      assert a + b == a;
    } else {
      var n := |b| - 1;
      assert (a + b)[..|a + b| - 1] == a + b[..n];
      ScribblesComeInOrder(cfg, invalid, a, b[..n]);
    }
  }

  /** Leaving out wear of inner pages keeps the others in order and number, however the list is divided. */
  lemma {:induction false} OthersStayInOrder(a: seq<Defect>, b: seq<Defect>)
    ensures WithoutInnerWear(a + b) == WithoutInnerWear(a) + WithoutInnerWear(b)
  {
    if b == [] {
      assert a + b == a;
    } else {
      var n := |b| - 1;
      assert (a + b)[..|a + b| - 1] == a + b[..n];
      OthersStayInOrder(a, b[..n]);
    }
  }

  lemma OneStaysOrGoes(d: Defect)
    ensures WithoutInnerWear([d])
            == if d.dtype == "DMG_EDGE_WEAR" && d.imageIndex.Some? && d.imageIndex.value >= 3 then [] else [d]
  {
    assert [d][..0] == [];
  }

  // --- Adoption --------------------------------------------------------------------------------------

  /** Something in the candidate's shot overlaps it by half. */
  predicate Overlapped(ds: seq<Defect>, c: Candidate) {
    exists d :: d in ds && d.imageIndex.GetOr(0) == c.imageIndex && BboxIou(d.bbox, c.bbox) >= 0.5
  }

  predicate AllOverlapped(ds: seq<Defect>, cs: seq<Candidate>) {
    forall c :: c in cs && WearCandidate(c) ==> Overlapped(ds, c)
  }

  lemma OneMoreCandidate(ds: seq<Defect>, rest: seq<Candidate>, c: Candidate)
    ensures AllOverlapped(ds, rest + [c]) <==> AllOverlapped(ds, rest) && (WearCandidate(c) ==> Overlapped(ds, c))
  {
    assert c in rest + [c] && forall x :: x in rest ==> x in rest + [c];
  }

  lemma AdoptOrNot(ds: seq<Defect>, c: Candidate)
    ensures Adopt(ds, c) == ds || |Adopt(ds, c)| == |ds| + 1
    ensures Adopt(ds, c) == ds <==> (WearCandidate(c) ==> Overlapped(ds, c))
  {
    assert AlreadyReported(ds, c) <==> Overlapped(ds, c);
    assert |ds + [Fresh(EDGE_WEAR_CODE, 0, c.bbox, Some(c.imageIndex), c.confidence).(source := FromYolo, adopted := true)]| == |ds| + 1;
  }

  /** Nothing is adopted exactly if every wear candidate with a place overlaps something reported in its shot. */
  lemma {:induction false} NothingAdoptedIff(ds: seq<Defect>, cs: seq<Candidate>)
    ensures |AdoptAll(ds, cs)| >= |ds|
    ensures |AdoptAll(ds, cs)| == |ds| ==> AdoptAll(ds, cs) == ds
    ensures |AdoptAll(ds, cs)| == |ds| <==> AllOverlapped(ds, cs)
  {
    if cs == [] {
    } else {
      var n := |cs| - 1;
      NothingAdoptedIff(ds, cs[..n]);
      AdoptOrNot(AdoptAll(ds, cs[..n]), cs[n]);
      OneMoreCandidate(ds, cs[..n], cs[n]);
      assert cs == cs[..n] + [cs[n]];
    }
  }

  /** The defect is a wear candidate, with its measured confidence, that nothing before it overlaps by half. */
  predicate NewlyAdopted(cs: seq<Candidate>, before: seq<Defect>, d: Defect) {
    exists c :: c in cs && WearCandidate(c) && IsMeasured(d, c) && !Overlapped(before, c)
  }

  predicate IsMeasured(d: Defect, c: Candidate) {
    IsAdopted(d, c) && d.source == FromYolo && d.confidence == c.confidence
  }

  /** An adopted defect overlaps nothing before it in its shot by half. */
  lemma {:induction false} AdoptedAreNew(ds: seq<Defect>, cs: seq<Candidate>)
    ensures |AdoptAll(ds, cs)| >= |ds|
    ensures forall j :: |ds| <= j < |AdoptAll(ds, cs)| ==> NewlyAdopted(cs, AdoptAll(ds, cs)[..j], AdoptAll(ds, cs)[j])
  {
    if cs == [] {
    } else {
      var n := |cs| - 1;
      var before, after := AdoptAll(ds, cs[..n]), AdoptAll(ds, cs);
      AdoptedAreNew(ds, cs[..n]);
      AdoptOrNot(before, cs[n]);
      forall j | |ds| <= j < |after|
        ensures NewlyAdopted(cs, after[..j], after[j])
      {
        if j < |before| {
          assert after[..j] == before[..j] && after[j] == before[j];
          StillNew(cs, n, before[..j], before[j]);
        } else {
          assert after[..j] == before;
          LastIsNew(cs, n, before, after[j]);
        }
      }
    }
  }

  lemma StillNew(cs: seq<Candidate>, n: nat, before: seq<Defect>, d: Defect)
    requires n <= |cs| && NewlyAdopted(cs[..n], before, d)
    ensures NewlyAdopted(cs, before, d)
  {
    var c :| c in cs[..n] && WearCandidate(c) && IsMeasured(d, c) && !Overlapped(before, c);
    assert c in cs;
  }

  lemma LastIsNew(cs: seq<Candidate>, n: nat, before: seq<Defect>, d: Defect)
    requires n < |cs| && WearCandidate(cs[n]) && !Overlapped(before, cs[n])
    requires d == Adopt(before, cs[n])[|Adopt(before, cs[n])| - 1] && Adopt(before, cs[n]) != before
    ensures NewlyAdopted(cs, before, d)
  {
    assert IsMeasured(d, cs[n]) && cs[n] in cs;
  }

  /** A reading's book is mint exactly if the model says so, no scribble is in a readable shot, and, with adoption on, every
      wear candidate with a place is reported already. */
  lemma MintIff(cfg: Config, cs: seq<Candidate>, answer: VlmAnswer, verdicts: seq<Verdict>)
    requires Reads(cfg, []) && answer.Reading?
    ensures Looked(cfg, cs, [], answer, verdicts).isMint <==>
              && answer.isMint
              && (forall h :: h in answer.doodles ==> !InReadableShot(cfg, answer, h.imageIndex))
              && (cfg.wearAutoAdopt ==> AllOverlapped(FromReports(answer.reported), cs))
  {
    MintBeforeAdoption(cfg, answer);
    NothingAdoptedIff(Taken(cfg, [], answer).defects, cs);
  }

  lemma MintBeforeAdoption(cfg: Config, answer: VlmAnswer)
    requires Reads(cfg, []) && answer.Reading?
    ensures var taken := Taken(cfg, [], answer);
            && (taken.isMint <==> answer.isMint && forall h :: h in answer.doodles ==> !InReadableShot(cfg, answer, h.imageIndex))
            && ((forall h :: h in answer.doodles ==> !InReadableShot(cfg, answer, h.imageIndex)) ==>
                  taken.defects == FromReports(answer.reported))
  {
    var hits := FromHits(cfg, InvalidShots(cfg, answer.invalid), answer.doodles);
    if hits == [] {
      forall h | h in answer.doodles
        ensures !InReadableShot(cfg, answer, h.imageIndex)
      {
        ScribblesAre(cfg, answer, answer.doodles, FromHit(h));
      }
      assert FromReports(answer.reported) + hits == FromReports(answer.reported);
    } else {
      ScribblesAre(cfg, answer, answer.doodles, hits[0]);
    }
  }

  // --- Copied confidences --------------------------------------------------------------------------------

  /** The model's own number. */
  predicate OwnNumber(d: Defect) {
    d.source != FromYolo && !d.adopted && d.confidence.Some?
  }

  /** All of the model's own numbers are the same. */
  predicate OwnAgree(ds: seq<Defect>) {
    forall d, e :: d in ds && e in ds && OwnNumber(d) && OwnNumber(e) ==> d.confidence == e.confidence
  }

  predicate SomeOwn(ds: seq<Defect>, x: int) {
    exists d :: d in ds && OwnNumber(d) && d.confidence.value == x
  }

  lemma {:induction false} OwnIsListed(ds: seq<Defect>, x: int)
    ensures x in SelfReports(ds) <==> SomeOwn(ds, x)
  {
    if ds == [] {
    } else {
      var n := |ds| - 1;
      OwnIsListed(ds[..n], x);
      assert ds == ds[..n] + [ds[n]];
      assert forall d :: d in ds <==> d in ds[..n] || d == ds[n];
    }
  }

  predicate AnyOwn(ds: seq<Defect>) {
    exists i :: 0 <= i < |ds| && OwnNumber(ds[i])
  }

  predicate TwoOwn(ds: seq<Defect>) {
    exists i, j :: 0 <= i < j < |ds| && OwnNumber(ds[i]) && OwnNumber(ds[j])
  }

  lemma OwnOfOneMore(ds: seq<Defect>, d: Defect)
    ensures AnyOwn(ds + [d]) <==> AnyOwn(ds) || OwnNumber(d)
    ensures TwoOwn(ds + [d]) <==> TwoOwn(ds) || (OwnNumber(d) && AnyOwn(ds))
  {
    var all := ds + [d];
    assert all[|ds|] == d && forall i :: 0 <= i < |ds| ==> all[i] == ds[i];
    if TwoOwn(all) {
      var i, j :| 0 <= i < j < |all| && OwnNumber(all[i]) && OwnNumber(all[j]);
      assert OwnNumber(ds[i]);
    }
    if TwoOwn(ds) {
      var i, j :| 0 <= i < j < |ds| && OwnNumber(ds[i]) && OwnNumber(ds[j]);
      assert OwnNumber(all[i]) && OwnNumber(all[j]);
    }
    if AnyOwn(ds) {
      var i :| 0 <= i < |ds| && OwnNumber(ds[i]);
      assert OwnNumber(all[i]);
    }
  }

  lemma {:induction false} OwnAreCounted(ds: seq<Defect>)
    ensures |SelfReports(ds)| >= 1 <==> AnyOwn(ds)
    ensures |SelfReports(ds)| >= 2 <==> TwoOwn(ds)
  {
    if ds == [] {
    } else {
      var n := |ds| - 1;
      OwnAreCounted(ds[..n]);
      OwnOfOneMore(ds[..n], ds[n]);
      assert ds == ds[..n] + [ds[n]];
    }
  }

  lemma FlatIff(ds: seq<Defect>)
    ensures FlatReport(ds) <==> TwoOwn(ds) && OwnAgree(ds)
  {
    var confs := SelfReports(ds);
    OwnAreCounted(ds);
    if FlatReport(ds) {
      forall d, e | d in ds && e in ds && OwnNumber(d) && OwnNumber(e)
        ensures d.confidence == e.confidence
      {
        OwnIsListed(ds, d.confidence.value);
        OwnIsListed(ds, e.confidence.value);
      }
    }
    if OwnAgree(ds) {
      forall i | 0 <= i < |confs|
        ensures confs[i] == confs[0]
      {
        OwnIsListed(ds, confs[i]);
        OwnIsListed(ds, confs[0]);
      }
    }
  }

  lemma LaterPassesKeepNumbers(cfg: Config, cs: seq<Candidate>, verdicts: seq<Verdict>, ds: seq<Defect>, i: nat)
    requires i < |ds|
    ensures var s, out := Sourced(ds, cs), Screened(cfg, cs, verdicts, ds);
            |out| == |s| == |ds| && out[i].source == s[i].source && out[i].adopted == s[i].adopted && out[i].confidence == s[i].confidence
            && out[i].copied == (s[i].copied || (FlatReport(s) && s[i].source != FromYolo))
  {
    var s := Sourced(ds, cs);
    var f := Flattened(s);
    assert f[i].source == s[i].source && f[i].adopted == s[i].adopted && f[i].confidence == s[i].confidence;
    MarksKeepNumbers(f, i);
    ChecksKeepNumbers(cfg, GroundedMarks(f), verdicts, i);
  }

  lemma MarksKeepNumbers(f: seq<Defect>, i: nat)
    requires i < |f|
    ensures var g := GroundedMarks(f)[i];
            g.source == f[i].source && g.adopted == f[i].adopted && g.confidence == f[i].confidence && g.copied == f[i].copied
  {
  }

  lemma ChecksKeepNumbers(cfg: Config, g: seq<Defect>, verdicts: seq<Verdict>, i: nat)
    requires i < |g|
    ensures var c := Checked(cfg, g, verdicts)[i];
            c.source == g[i].source && c.adopted == g[i].adopted && c.confidence == g[i].confidence && c.copied == g[i].copied
  {
  }

  /** The number that a hint carries. */
  predicate IsAHintsNumber(cs: seq<Candidate>, d: Defect) {
    !d.adopted && d.confidence.Some? && exists c :: c in cs && c.confidence == d.confidence
  }

  lemma CopiedAtFirst(ds: seq<Defect>, cs: seq<Candidate>, i: nat)
    requires i < |ds| && !ds[i].copied
    ensures Sourced(ds, cs)[i].copied <==> IsAHintsNumber(cs, ds[i])
  {
    if cs != [] && ds[i].confidence.Some? {
      assert ds[i].confidence.value in HintConfidences(cs) <==> exists c :: c in cs && c.confidence == ds[i].confidence by {
        if c :| c in cs && c.confidence == ds[i].confidence {
          assert c.confidence.value in HintConfidences(cs);
        }
      }
    }
  }

  /** Of a fresh list a confidence is marked as copied exactly if it is the number of a hint, or if it was not measured and
      the model gave the same number, twice or more, wherever it gave one of its own. */
  lemma CopiedIff(cfg: Config, cs: seq<Candidate>, verdicts: seq<Verdict>, ds: seq<Defect>, i: nat)
    requires i < |ds| && !ds[i].copied
    ensures var out := Screened(cfg, cs, verdicts, ds);
            |out| == |ds|
            && (out[i].copied <==> IsAHintsNumber(cs, ds[i]) || (out[i].source != FromYolo && TwoOwn(out) && OwnAgree(out)))
  {
    var s, out := Sourced(ds, cs), Screened(cfg, cs, verdicts, ds);
    CopiedAtFirst(ds, cs, i);
    FlatIff(s);
    forall j | 0 <= j < |ds|
      ensures out[j].source == s[j].source && out[j].adopted == s[j].adopted && out[j].confidence == s[j].confidence
    {
      LaterPassesKeepNumbers(cfg, cs, verdicts, ds, j);
    }
    LaterPassesKeepNumbers(cfg, cs, verdicts, ds, i);
    SameNumbers(s, out);
  }

  lemma SameNumbers(a: seq<Defect>, b: seq<Defect>)
    requires |a| == |b|
    requires forall j :: 0 <= j < |a| ==> b[j].source == a[j].source && b[j].adopted == a[j].adopted && b[j].confidence == a[j].confidence
    ensures TwoOwn(a) <==> TwoOwn(b)
    ensures OwnAgree(a) <==> OwnAgree(b)
  {
    assert forall j :: 0 <= j < |a| ==> (OwnNumber(a[j]) <==> OwnNumber(b[j]));
    AgreesToo(a, b);
    AgreesToo(b, a);
    if TwoOwn(a) {
      var i, j :| 0 <= i < j < |a| && OwnNumber(a[i]) && OwnNumber(a[j]);
      assert OwnNumber(b[i]) && OwnNumber(b[j]);
    }
    if TwoOwn(b) {
      var i, j :| 0 <= i < j < |b| && OwnNumber(b[i]) && OwnNumber(b[j]);
      assert OwnNumber(a[i]) && OwnNumber(a[j]);
    }
  }

  lemma AgreesToo(a: seq<Defect>, b: seq<Defect>)
    requires |a| == |b|
    requires forall j :: 0 <= j < |a| ==> b[j].source == a[j].source && b[j].adopted == a[j].adopted && b[j].confidence == a[j].confidence
    ensures OwnAgree(a) ==> OwnAgree(b)
  {
    if OwnAgree(a) {
      forall d, e | d in b && e in b && OwnNumber(d) && OwnNumber(e)
        ensures d.confidence == e.confidence
      {
        var i :| 0 <= i < |b| && b[i] == d;
        var j :| 0 <= j < |b| && b[j] == e;
        assert a[i] in a && a[j] in a;
      }
    }
  }

  // --- The evidence check ---------------------------------------------------------------------------------

  /** The check gets to see the spot: it is placed by more than a guess in a shot of the batch, and not measured surely. */
  predicate IsLookedAt(cfg: Config, d: Defect) {
    && d.bbox.Some? && 0 <= d.imageIndex.GetOr(0) < cfg.imageCount && !d.ungrounded
    && !(d.source == FromYolo && d.confidence.Some? && d.confidence.value >= cfg.exemptConf)
  }

  /** After the screening of a fresh list a defect is dismissed exactly if it was looked at and the verdict on it is no, or
      that one cannot tell and the setting says so; a measured confidence at the threshold exempts it. */
  lemma DismissedIff(cfg: Config, cs: seq<Candidate>, verdicts: seq<Verdict>, ds: seq<Defect>, i: nat)
    requires NothingDismissed(ds) && i < |ds|
    ensures var out := Screened(cfg, cs, verdicts, ds);
            |out| == |ds|
            && (out[i].suspect <==>
                  && cfg.llmAvailable && IsLookedAt(cfg, out[i]) && i < |verdicts|
                  && (verdicts[i].No? || (verdicts[i].CannotTell? && cfg.unclearExcludes)))
            && (cfg.llmAvailable && cfg.imageCount > 0 ==>
                  && (out[i].verify == ExemptHighConf <==>
                        out[i].source == FromYolo && out[i].confidence.Some? && out[i].confidence.value >= cfg.exemptConf)
                  && (IsLookedAt(cfg, out[i]) && i < |verdicts| ==>
                        (out[i].verify == Confirmed <==> verdicts[i].Yes?) && (out[i].verify == Rejected <==> verdicts[i].No?)))
  {
    SourcedDismissesNothing(ds, cs);
    var g := GroundedMarks(Flattened(Sourced(ds, cs)));
    assert g[i] in g;
    CheckedIff(cfg, g, verdicts, i);
  }

  lemma CheckedIff(cfg: Config, g: seq<Defect>, verdicts: seq<Verdict>, i: nat)
    requires i < |g| && !g[i].suspect
    ensures var out := Checked(cfg, g, verdicts);
            && (out[i].suspect <==>
                  && cfg.llmAvailable && IsLookedAt(cfg, out[i]) && i < |verdicts|
                  && (verdicts[i].No? || (verdicts[i].CannotTell? && cfg.unclearExcludes)))
            && (cfg.llmAvailable && cfg.imageCount > 0 ==>
                  && (out[i].verify == ExemptHighConf <==>
                        out[i].source == FromYolo && out[i].confidence.Some? && out[i].confidence.value >= cfg.exemptConf)
                  && (IsLookedAt(cfg, out[i]) && i < |verdicts| ==>
                        (out[i].verify == Confirmed <==> verdicts[i].Yes?) && (out[i].verify == Rejected <==> verdicts[i].No?)))
  {
  }
}
