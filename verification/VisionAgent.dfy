/** The vision agent's passes over its defect list, as the program runs them. */
module VisionAgent {
  import opened Options
  import opened Defects
  import opened Geometry
  import opened Vision
  import Grounding

  /** The scribbles found in readable inner-page regions join the defects. */
  method AddDoodles(cfg: Config, invalid: set<int>, hits: seq<DoodleHit>, defects: seq<Defect>)
    returns (out: seq<Defect>, added: nat)
    ensures out == defects + FromHits(cfg, invalid, hits)
    ensures added == |FromHits(cfg, invalid, hits)|
  {
    out, added := defects, 0;
    for i := 0 to |hits|
      invariant out == defects + FromHits(cfg, invalid, hits[..i])
      invariant added == |FromHits(cfg, invalid, hits[..i])|
    {
      assert hits[..i + 1][..i] == hits[..i];
      if !ReadableHit(cfg, invalid, hits[i]) {
        continue;
      }
      out := out + [FromHit(hits[i])];
      added := added + 1;
    }
    assert hits[..|hits|] == hits;
  }

  /** WEAR_AUTO_ADOPT: wear candidates become defects unless the same box is already there. */
  method AdoptCandidates(candidates: seq<Candidate>, defects: seq<Defect>) returns (out: seq<Defect>, adopted: nat)
    ensures out == AdoptAll(defects, candidates)
    ensures adopted == |out| - |defects|
  {
    out, adopted := defects, 0;
    for i := 0 to |candidates|
      invariant out == AdoptAll(defects, candidates[..i])
      invariant adopted == |out| - |defects|
    {
      var c := candidates[i];
      assert candidates[..i + 1][..i] == candidates[..i];
      if c.dtype != EDGE_WEAR_CODE || c.bbox.None? {
        continue;
      }
      if AlreadyReported(out, c) {
        continue;
      }
      out := out + [Fresh(EDGE_WEAR_CODE, 0, c.bbox, Some(c.imageIndex), c.confidence).(source := FromYolo, adopted := true)];
      adopted := adopted + 1;
    }
    assert candidates[..|candidates|] == candidates;
  }

  method FindBestMatch(d: Defect, candidates: seq<Candidate>) returns (best: Option<Candidate>, bestIou: real)
    ensures (best, bestIou) == BestMatch(d, candidates)
  {
    best, bestIou := None, 0.0;
    for i := 0 to |candidates|
      invariant (best, bestIou) == BestMatch(d, candidates[..i])
    {
      var c := candidates[i];
      assert candidates[..i + 1][..i] == candidates[..i];
      if c.imageIndex != Grounding.Shot(d) {
        continue;
      }
      var iou := BboxIou(d.bbox, c.bbox);
      if iou > bestIou {
        best, bestIou := Some(c), iou;
      }
    }
    assert candidates[..|candidates|] == candidates;
  }

  /** Copied confidences are marked first, then every confidence gets its source. */
  method SettleSources(defects: seq<Defect>, candidates: seq<Candidate>) returns (out: seq<Defect>)
    ensures out == Sourced(defects, candidates)
  {
    out := defects;
    if defects == [] || candidates == [] {
      return;
    }
    var hints := HintConfidences(candidates);
    var n := |defects|;
    for i := 0 to n
      invariant |out| == n
      invariant forall j :: 0 <= j < i ==> out[j] == MarkCopied(defects[j], hints)
      invariant forall j :: i <= j < n ==> out[j] == defects[j]
    {
      var d := out[i];
      if d.adopted {
        continue;
      }
      if d.confidence.Some? && d.confidence.value in hints {
        out := out[i := d.(copied := true)];
      }
    }
    for i := 0 to n
      invariant |out| == n
      invariant forall j :: 0 <= j < i ==> out[j] == SetSource(MarkCopied(defects[j], hints), candidates)
      invariant forall j :: i <= j < n ==> out[j] == MarkCopied(defects[j], hints)
    {
      var d := out[i];
      var best, bestIou := FindBestMatch(d, candidates);
      if best.Some? && bestIou >= 0.9 && best.value.confidence.Some? {
        out := out[i := d.(source := FromYolo, confidence := best.value.confidence)];
      } else {
        out := out[i := d.(source := FromVlm)];
      }
    }
  }

  /** Two or more equal self-reports are no judgement. */
  method MarkFlatReport(defects: seq<Defect>) returns (out: seq<Defect>)
    ensures out == Flattened(defects)
  {
    out := defects;
    var confs := SelfReports(defects);
    if |confs| < 2 || exists i | 0 <= i < |confs| :: confs[i] != confs[0] {
      return;
    }
    for i := 0 to |defects|
      invariant |out| == |defects|
      invariant forall j :: 0 <= j < i ==>
                  out[j] == if defects[j].source != FromYolo then defects[j].(copied := true) else defects[j]
      invariant forall j :: i <= j < |defects| ==> out[j] == defects[j]
    {
      if out[i].source != FromYolo {
        out := out[i := out[i].(copied := true)];
      }
    }
  }

  /** The check has been through some of the defects. */
  ghost predicate VerifiedTo(cfg: Config, defects: seq<Defect>, verdicts: seq<Verdict>, i: nat, out: seq<Defect>, found: set<nat>) {
    && |out| == |defects| && i <= |defects|
    && (forall j :: 0 <= j < i ==> out[j] == defects[j].(verify := StatusOf(cfg, defects[j], VerdictAt(verdicts, j))))
    && (forall j :: i <= j < |defects| ==> out[j] == defects[j])
    && (forall j: nat :: j in found <==> j < i && Dismisses(cfg, StatusOf(cfg, defects[j], VerdictAt(verdicts, j))))
  }

  lemma VerifyOne(cfg: Config, defects: seq<Defect>, verdicts: seq<Verdict>, i: nat, out: seq<Defect>, found: set<nat>, status: VerifyStatus)
    requires i < |defects| && VerifiedTo(cfg, defects, verdicts, i, out, found)
    requires status == StatusOf(cfg, defects[i], VerdictAt(verdicts, i))
    ensures VerifiedTo(cfg, defects, verdicts, i + 1, out[i := out[i].(verify := status)],
                       if Dismisses(cfg, status) then found + {i} else found)
  {
  }

  /** verify_defects_with_images: a status for every defect and the positions that the check dismisses; None when
      nothing was judged. */
  method VerifyDefects(cfg: Config, defects: seq<Defect>, verdicts: seq<Verdict>)
    returns (out: seq<Defect>, suspects: Option<set<nat>>)
    ensures |out| == |defects|
    ensures !CanCheck(cfg, defects) ==> out == defects && suspects == None
    ensures CanCheck(cfg, defects) ==> forall i :: 0 <= i < |defects| ==>
              out[i] == defects[i].(verify := StatusOf(cfg, defects[i], VerdictAt(verdicts, i)))
    ensures CanCheck(cfg, defects) ==> forall i: nat ::
              i in suspects.GetOr({}) <==> i < |defects| && Dismisses(cfg, StatusOf(cfg, defects[i], VerdictAt(verdicts, i)))
  {
    out, suspects := defects, None;
    if !cfg.llmAvailable || defects == [] || cfg.imageCount == 0 {
      return;
    }
    var found: set<nat>, judged := {}, 0;
    for i := 0 to |defects|
      invariant VerifiedTo(cfg, defects, verdicts, i, out, found)
      invariant judged == 0 ==> found == {}
    {
      var d := out[i];
      VerifyOne(cfg, defects, verdicts, i, out, found, StatusOf(cfg, d, VerdictAt(verdicts, i)));
      if d.source == FromYolo && d.confidence.Some? && d.confidence.value >= cfg.exemptConf {
        out := out[i := d.(verify := ExemptHighConf)];
        continue;
      }
      var idx := Grounding.Shot(d);
      if d.bbox.None? || !(0 <= idx < cfg.imageCount) {
        out := out[i := d.(verify := SkippedNoBBox)];
        continue;
      }
      if d.ungrounded {
        out := out[i := d.(verify := SkippedUngrounded)];
        continue;
      }
      var v := VerdictAt(verdicts, i);
      if v.CropFailed? || v.LlmError? {
        out := out[i := d.(verify := if v.CropFailed? then SkippedCropFailed else SkippedLlmError)];
        continue;
      }
      judged := judged + 1;
      out := out[i := d.(verify := if v.Yes? then Confirmed else if v.No? then Rejected else Unclear)];
      if v.No? || (v.CannotTell? && cfg.unclearExcludes) {
        found := found + {i};
      }
    }
    if judged == 0 && found == {} {
      return;
    }
    suspects := Some(found);
  }

  /** The check, then the mark on every dismissed defect. */
  method CheckEvidence(cfg: Config, defects: seq<Defect>, verdicts: seq<Verdict>) returns (out: seq<Defect>)
    ensures out == Checked(cfg, defects, verdicts)
  {
    var suspects;
    out, suspects := VerifyDefects(cfg, defects, verdicts);
    if suspects.None? {
      return;
    }
    ghost var verified := out;
    for i := 0 to |out|
      invariant |out| == |defects|
      invariant forall j :: 0 <= j < i ==> out[j] == if j in suspects.value then verified[j].(suspect := true) else verified[j]
      invariant forall j :: i <= j < |out| ==> out[j] == verified[j]
    {
      if i in suspects.value {
        out := out[i := out[i].(suspect := true)];
      }
    }
  }

  /** vision_agent: None when the reading failed. */
  method Look(cfg: Config, candidates: seq<Candidate>, before: seq<Defect>, answer: VlmAnswer, verdicts: seq<Verdict>)
    returns (outcome: Option<Outcome>)
    ensures outcome.None? <==> Reads(cfg, before) && answer.Failure?
    ensures outcome.Some? ==> outcome.value == Looked(cfg, candidates, before, answer, verdicts)
  {
    var isMint, defects, invalid := before == [], before, {};
    if cfg.llmAvailable && before == [] && cfg.imageCount > 0 {
      if answer.Failure? {
        return None;
      }
      isMint, defects, invalid := answer.isMint, FromReports(answer.reported), InvalidShots(cfg, answer.invalid);
      var added;
      defects, added := AddDoodles(cfg, invalid, answer.doodles, defects);
      if added > 0 {
        isMint := false;
      }
    }
    assert Outcome(isMint, defects, invalid) == Taken(cfg, before, answer);
    if cfg.wearAutoAdopt {
      var adopted;
      defects, adopted := AdoptCandidates(candidates, defects);
      if adopted > 0 {
        isMint := false;
      }
    }
    defects := WithoutInnerWear(defects);
    assert Outcome(isMint, defects, invalid) == Judged(cfg, candidates, Taken(cfg, before, answer));
    defects := SettleSources(defects, candidates);
    defects := MarkFlatReport(defects);
    var ungrounded;
    defects, ungrounded := Grounding.FlagUngroundedBboxes(defects);
    defects := CheckEvidence(cfg, defects, verdicts);
    outcome := Some(Outcome(isMint, defects, invalid));
  }
}
