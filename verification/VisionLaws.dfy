/** What the vision agent's passes keep, and what a dismissal rests on. */
module VisionLaws {
  import opened Options
  import opened Defects
  import opened Geometry
  import opened Vision
  import Grounding

  /** Known limits of an axis end up in order; a limit without its partner stays where it is, and none is lost. */
  predicate AxisOrdered(was: (Option<int>, Option<int>), now: (Option<int>, Option<int>)) {
    if was.0.Some? && was.1.Some?
    then now.0.Some? && now.1.Some? && now.0.value <= now.1.value && (now == was || now == (was.1, was.0))
    else now == was
  }

  /** A normalised box has each known axis in order, with the same limits as before; doing it again changes nothing. */
  lemma NormalizedBoxIsOrdered(b: BBox)
    ensures var n := NormalizeBox(b);
            && AxisOrdered((b.xmin, b.xmax), (n.xmin, n.xmax)) && AxisOrdered((b.ymin, b.ymax), (n.ymin, n.ymax))
            && NormalizeBox(n) == n
  {
  }

  /** The parts of a defect that the passes leave alone. */
  predicate SameReport(a: Defect, b: Defect) {
    && a.dtype == b.dtype && a.kind == b.kind && a.ratio == b.ratio && a.level == b.level && a.pages == b.pages
    && a.textOverlap == b.textOverlap && a.bbox == b.bbox && a.imageIndex == b.imageIndex && a.adopted == b.adopted
    && a.charge == b.charge
  }

  lemma SettingSourceKeepsReport(d: Defect, hints: set<int>, cs: seq<Candidate>)
    ensures SameReport(SetSource(MarkCopied(d, hints), cs), d)
  {
    CopyMarkKeepsReport(d, hints);
    SourceKeepsReport(MarkCopied(d, hints), cs);
  }

  lemma CopyMarkKeepsReport(d: Defect, hints: set<int>)
    ensures SameReport(MarkCopied(d, hints), d)
  {
  }

  lemma SourceKeepsReport(d: Defect, cs: seq<Candidate>)
    ensures SameReport(SetSource(d, cs), d)
  {
  }

  lemma SourcingKeepsReport(ds: seq<Defect>, cs: seq<Candidate>, i: nat)
    requires i < |ds|
    ensures SameReport(Sourced(ds, cs)[i], ds[i])
  {
    SettingSourceKeepsReport(ds[i], HintConfidences(cs), cs);
  }

  lemma FlatteningKeepsReport(ds: seq<Defect>, i: nat)
    requires i < |ds|
    ensures SameReport(Flattened(ds)[i], ds[i])
  {
  }

  lemma GroundingKeepsReport(ds: seq<Defect>, i: nat)
    requires i < |ds|
    ensures SameReport(GroundedMarks(ds)[i], ds[i])
  {
  }

  lemma CheckingKeepsReport(cfg: Config, ds: seq<Defect>, verdicts: seq<Verdict>, i: nat)
    requires i < |ds|
    ensures SameReport(Checked(cfg, ds, verdicts)[i], ds[i])
  {
  }

  /** The screening removes and invents nothing: position by position it only adds marks. */
  lemma ScreeningKeepsReports(cfg: Config, cs: seq<Candidate>, verdicts: seq<Verdict>, ds: seq<Defect>)
    ensures |Screened(cfg, cs, verdicts, ds)| == |ds|
    ensures forall i :: 0 <= i < |ds| ==> SameReport(Screened(cfg, cs, verdicts, ds)[i], ds[i])
  {
    var s := Sourced(ds, cs);
    var f := Flattened(s);
    var g := GroundedMarks(f);
    var out := Checked(cfg, g, verdicts);
    forall i | 0 <= i < |ds|
      ensures SameReport(out[i], ds[i])
    {
      SourcingKeepsReport(ds, cs, i);
      FlatteningKeepsReport(s, i);
      GroundingKeepsReport(f, i);
      CheckingKeepsReport(cfg, g, verdicts, i);
    }
  }

  /** Where a dismissed defect was looked at: a grounded box in a shot of the batch, judged on its crop. */
  predicate Witnessed(cfg: Config, d: Defect) {
    && d.bbox.Some? && 0 <= Grounding.Shot(d) < cfg.imageCount && !d.ungrounded
    && (d.verify == Rejected || (d.verify == Unclear && cfg.unclearExcludes))
  }

  predicate NothingDismissed(ds: seq<Defect>) {
    forall d :: d in ds ==> !d.suspect
  }

  lemma SourcedDismissesNothing(ds: seq<Defect>, cs: seq<Candidate>)
    requires NothingDismissed(ds)
    ensures NothingDismissed(GroundedMarks(Flattened(Sourced(ds, cs))))
  {
    var s := Sourced(ds, cs);
    var f := Flattened(s);
    var g := GroundedMarks(f);
    forall i | 0 <= i < |ds|
      ensures !g[i].suspect
    {
      assert ds[i] in ds;
      assert s[i].suspect == ds[i].suspect;
      assert f[i].suspect == s[i].suspect;
    }
  }

  /** A deduction is lifted only where the check saw the spot; an invented or missing place never lifts one. */
  lemma DismissalsAreWitnessed(cfg: Config, cs: seq<Candidate>, verdicts: seq<Verdict>, ds: seq<Defect>)
    requires NothingDismissed(ds)
    ensures forall d :: d in Screened(cfg, cs, verdicts, ds) && d.suspect ==> Witnessed(cfg, d)
  {
    SourcedDismissesNothing(ds, cs);
    var g := GroundedMarks(Flattened(Sourced(ds, cs)));
    var out := Screened(cfg, cs, verdicts, ds);
    forall i | 0 <= i < |ds|
      ensures out[i].suspect ==> Witnessed(cfg, out[i])
    {
      assert g[i] in g;
    }
  }

  lemma {:induction false} BestMatchIsACandidate(d: Defect, cs: seq<Candidate>)
    ensures var (best, iou) := BestMatch(d, cs);
            && (best.Some? ==> best.value in cs && best.value.imageIndex == Grounding.Shot(d) && iou == BboxIou(d.bbox, best.value.bbox))
            && (forall c :: c in cs && c.imageIndex == Grounding.Shot(d) ==> BboxIou(d.bbox, c.bbox) <= iou)
            && (best.None? ==> iou == 0.0)
  {
    if cs == [] {
    } else {
      BestMatchIsACandidate(d, cs[..|cs| - 1]);
      assert cs == cs[..|cs| - 1] + [cs[|cs| - 1]];
    }
  }

  /** A confidence counts as measured when a hint of the same shot overlaps by 0.9 or more, and then it is such a
      hint's; hints carry confidences. */
  lemma MeasuredConfidence(d: Defect, cs: seq<Candidate>)
    ensures SetSource(d, cs).source == FromYolo ==>
              exists c :: c in cs && c.imageIndex == Grounding.Shot(d) && BboxIou(d.bbox, c.bbox) >= 0.9
                          && c.confidence.Some? && SetSource(d, cs).confidence == c.confidence
    ensures (forall c :: c in cs ==> c.confidence.Some?) &&
            (exists c :: c in cs && c.imageIndex == Grounding.Shot(d) && BboxIou(d.bbox, c.bbox) >= 0.9) ==>
              SetSource(d, cs).source == FromYolo
    ensures SetSource(d, cs).source != FromYolo ==> SetSource(d, cs).confidence == d.confidence
  {
    BestMatchIsACandidate(d, cs);
  }

  // --- A fresh reading --------------------------------------------------------------------------------

  predicate FreshDefect(d: Defect) {
    !d.suspect && !d.ungrounded && !d.copied && d.charge == UNCHARGED
  }

  predicate AllFresh(ds: seq<Defect>) {
    forall d :: d in ds ==> FreshDefect(d)
  }

  lemma {:induction false} HitsAreFresh(cfg: Config, invalid: set<int>, hits: seq<DoodleHit>)
    ensures AllFresh(FromHits(cfg, invalid, hits))
  {
    if hits == [] {
    } else {
      HitsAreFresh(cfg, invalid, hits[..|hits| - 1]);
    }
  }

  lemma {:induction false} AdoptedAreFresh(ds: seq<Defect>, cs: seq<Candidate>)
    requires AllFresh(ds)
    ensures AllFresh(AdoptAll(ds, cs))
  {
    if cs == [] {
    } else {
      AdoptedAreFresh(ds, cs[..|cs| - 1]);
    }
  }

  lemma {:induction false} InnerWearIsGone(ds: seq<Defect>)
    ensures forall d :: d in WithoutInnerWear(ds) <==> d in ds && !InnerWear(d)
  {
    if ds == [] {
    } else {
      InnerWearIsGone(ds[..|ds| - 1]);
      assert ds == ds[..|ds| - 1] + [ds[|ds| - 1]];
    }
  }

  /** What the passes start from after a reading: unmarked, uncharged defects without inner-page wear. */
  lemma ReadingIsFresh(cfg: Config, cs: seq<Candidate>, answer: VlmAnswer)
    requires Reads(cfg, []) ==> answer.Reading?
    ensures AllFresh(Judged(cfg, cs, Taken(cfg, [], answer)).defects)
    ensures forall d :: d in Judged(cfg, cs, Taken(cfg, [], answer)).defects ==> !InnerWear(d)
  {
    var taken := Taken(cfg, [], answer);
    if Reads(cfg, []) {
      HitsAreFresh(cfg, taken.invalid, answer.doodles);
      assert AllFresh(FromReports(answer.reported));
    }
    assert AllFresh(taken.defects);
    AdoptedAreFresh(taken.defects, cs);
    InnerWearIsGone(if cfg.wearAutoAdopt then AdoptAll(taken.defects, cs) else taken.defects);
  }

  /** After a reading, wear on inner pages is gone, nothing is charged yet, and every dismissal is witnessed. */
  lemma ReadingLaws(cfg: Config, cs: seq<Candidate>, answer: VlmAnswer, verdicts: seq<Verdict>)
    requires Reads(cfg, []) ==> answer.Reading?
    ensures forall d :: d in Looked(cfg, cs, [], answer, verdicts).defects ==>
              && !InnerWear(d) && d.charge == UNCHARGED
              && (d.suspect ==> Witnessed(cfg, d))
  {
    var ds := Judged(cfg, cs, Taken(cfg, [], answer)).defects;
    ReadingIsFresh(cfg, cs, answer);
    ScreeningKeepsReports(cfg, cs, verdicts, ds);
    DismissalsAreWitnessed(cfg, cs, verdicts, ds);
    var out := Screened(cfg, cs, verdicts, ds);
    forall i | 0 <= i < |out|
      ensures !InnerWear(out[i]) && out[i].charge == UNCHARGED
    {
      assert SameReport(out[i], ds[i]) && ds[i] in ds;
    }
  }

  predicate AllUncharged(ds: seq<Defect>) {
    forall d :: d in ds ==> d.charge == UNCHARGED
  }

  lemma {:induction false} AdoptedAreUncharged(ds: seq<Defect>, cs: seq<Candidate>)
    requires AllUncharged(ds)
    ensures AllUncharged(AdoptAll(ds, cs))
  {
    if cs == [] {
    } else {
      AdoptedAreUncharged(ds, cs[..|cs| - 1]);
    }
  }

  /** A vision step charges nothing, whether it reads or goes on with the defects it finds. */
  lemma LookedIsUncharged(cfg: Config, cs: seq<Candidate>, before: seq<Defect>, answer: VlmAnswer, verdicts: seq<Verdict>)
    requires Reads(cfg, before) ==> answer.Reading?
    requires AllUncharged(before)
    ensures AllUncharged(Looked(cfg, cs, before, answer, verdicts).defects)
  {
    var taken := Taken(cfg, before, answer);
    if Reads(cfg, before) {
      HitsAreFresh(cfg, taken.invalid, answer.doodles);
    }
    assert AllUncharged(taken.defects);
    AdoptedAreUncharged(taken.defects, cs);
    InnerWearIsGone(if cfg.wearAutoAdopt then AdoptAll(taken.defects, cs) else taken.defects);
    var ds := Judged(cfg, cs, taken).defects;
    assert AllUncharged(ds);
    ScreeningKeepsReports(cfg, cs, verdicts, ds);
    var out := Screened(cfg, cs, verdicts, ds);
    forall i | 0 <= i < |out|
      ensures out[i].charge == UNCHARGED
    {
      assert SameReport(out[i], ds[i]) && ds[i] in ds;
    }
  }
}
