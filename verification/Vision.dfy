/**
 The vision agent (app/ai/agents/vision.py) around an arbitrary vision model: what it
 makes of a reading before the policy sees it.
 */
module Vision {
  import opened Options
  import opened Defects
  import opened Geometry
  import Grounding

  /** The settings of one inspection. Confidences count ten-thousandths. */
  datatype Config = Config(
    imageCount: nat,          // |image_paths|
    llmAvailable: bool,       // llm_vlm, llm_verify and llm_mini are created together
    wearAutoAdopt: bool,      // WMS_WEAR_AUTO_ADOPT
    unclearExcludes: bool,    // WMS_UNCLEAR_EXCLUDES_DEDUCTION
    exemptConf: int,          // WMS_VERIFY_EXEMPT_CONF
    workbook: bool)           // is_workbook, from title and category

  /** A detection that the detector node reports as a hint. */
  datatype Candidate = Candidate(dtype: string, bbox: Option<BBox>, imageIndex: int, confidence: Option<int>)

  // --- What the models may answer -------------------------------------------------------------

  datatype Reported = Reported(
    dtype: string, ratio: int, level: Option<int>, textOverlap: bool,
    bbox: Option<BBox>, imageIndex: Option<int>, confidence: Option<int>)

  /** A scribble found in an inner-page region that the vision model named. */
  datatype DoodleHit = DoodleHit(imageIndex: int, ratio: nat, bbox: BBox, confidence: Option<int>)

  datatype VlmAnswer =
    | Failure
    | Reading(isMint: bool, reported: seq<Reported>, invalid: seq<int>, doodles: seq<DoodleHit>)

  datatype Verdict = CropFailed | LlmError | Yes | No | CannotTell

  // --- From the report to defects ----------------------------------------------------------------

  /** Swaps reversed limits; a missing coordinate is left alone. */
  function OrderAxis(lo: Option<int>, hi: Option<int>): (Option<int>, Option<int>) {
    if lo.Some? && hi.Some? && lo.value > hi.value then (hi, lo) else (lo, hi)
  }

  function NormalizeBox(b: BBox): BBox {
    var (xmin, xmax) := OrderAxis(b.xmin, b.xmax);
    var (ymin, ymax) := OrderAxis(b.ymin, b.ymax);
    BBox(xmin, ymin, xmax, ymax)
  }

  function Fresh(dtype: string, ratio: int, bbox: Option<BBox>, imageIndex: Option<int>, confidence: Option<int>): Defect {
    Defect(dtype, Classify(dtype), ratio, None, 1, false, bbox, imageIndex, confidence,
           NoSource, false, false, false, NotVerified, false, UNCHARGED)
  }

  function FromReport(r: Reported): Defect {
    var bbox := if r.bbox.Some? then Some(NormalizeBox(r.bbox.value)) else None;
    Fresh(r.dtype, r.ratio, bbox, r.imageIndex, r.confidence).(level := r.level, textOverlap := r.textOverlap)
  }

  function FromReports(rs: seq<Reported>): (ds: seq<Defect>)
    ensures |ds| == |rs|
  {
    seq(|rs|, i requires 0 <= i < |rs| => FromReport(rs[i]))
  }

  /** The shots that the reading calls unreadable: those of the batch, each once. */
  function InvalidShots(cfg: Config, reported: seq<int>): set<int> {
    set i | i in reported && 0 <= i < cfg.imageCount
  }

  predicate ReadableHit(cfg: Config, invalid: set<int>, h: DoodleHit) {
    0 <= h.imageIndex < cfg.imageCount && h.imageIndex !in invalid
  }

  function FromHit(h: DoodleHit): Defect {
    Fresh(DOODLE_CODE, if h.ratio < 1 then 1 else h.ratio, Some(h.bbox), Some(h.imageIndex), h.confidence)
  }

  function FromHits(cfg: Config, invalid: set<int>, hits: seq<DoodleHit>): seq<Defect> {
    if hits == [] then []
    else
      var h := hits[|hits| - 1];
      FromHits(cfg, invalid, hits[..|hits| - 1]) + if ReadableHit(cfg, invalid, h) then [FromHit(h)] else []
  }

  // --- Adopted wear candidates ---------------------------------------------------------------------

  predicate AlreadyReported(ds: seq<Defect>, c: Candidate) {
    exists d :: d in ds && Grounding.Shot(d) == c.imageIndex && BboxIou(d.bbox, c.bbox) >= 0.5
  }

  function Adopt(ds: seq<Defect>, c: Candidate): seq<Defect> {
    if c.dtype != EDGE_WEAR_CODE || c.bbox.None? || AlreadyReported(ds, c) then ds
    else ds + [Fresh(EDGE_WEAR_CODE, 0, c.bbox, Some(c.imageIndex), c.confidence).(source := FromYolo, adopted := true)]
  }

  function AdoptAll(ds: seq<Defect>, cs: seq<Candidate>): seq<Defect> {
    if cs == [] then ds else Adopt(AdoptAll(ds, cs[..|cs| - 1]), cs[|cs| - 1])
  }

  // --- Wear on inner pages is not judged -----------------------------------------------------------

  const TRACK1_IMAGE_COUNT := 3

  predicate InnerWear(d: Defect) {
    d.imageIndex.Some? && d.imageIndex.value >= TRACK1_IMAGE_COUNT && d.dtype == EDGE_WEAR_CODE
  }

  function WithoutInnerWear(ds: seq<Defect>): seq<Defect> {
    if ds == [] then []
    else
      var d := ds[|ds| - 1];
      WithoutInnerWear(ds[..|ds| - 1]) + if InnerWear(d) then [] else [d]
  }

  // --- Where a confidence comes from ------------------------------------------------------------------

  function HintConfidences(cs: seq<Candidate>): set<int> {
    set c | c in cs && c.confidence.Some? :: c.confidence.value
  }

  function MarkCopied(d: Defect, hints: set<int>): Defect {
    if !d.adopted && d.confidence.Some? && d.confidence.value in hints then d.(copied := true) else d
  }

  /** The candidate of the same shot that overlaps most, the first of several equals. */
  function BestMatch(d: Defect, cs: seq<Candidate>): (Option<Candidate>, real) {
    if cs == [] then (None, 0.0)
    else
      var (best, iou) := BestMatch(d, cs[..|cs| - 1]);
      var c := cs[|cs| - 1];
      if c.imageIndex == Grounding.Shot(d) && BboxIou(d.bbox, c.bbox) > iou then (Some(c), BboxIou(d.bbox, c.bbox))
      else (best, iou)
  }

  function SetSource(d: Defect, cs: seq<Candidate>): Defect {
    var (best, iou) := BestMatch(d, cs);
    if best.Some? && iou >= 0.9 && best.value.confidence.Some?
    then d.(source := FromYolo, confidence := best.value.confidence)
    else d.(source := FromVlm)
  }

  function Sourced(ds: seq<Defect>, cs: seq<Candidate>): (out: seq<Defect>)
    ensures |out| == |ds|
  {
    if ds == [] || cs == [] then ds
    else seq(|ds|, i requires 0 <= i < |ds| => SetSource(MarkCopied(ds[i], HintConfidences(cs)), cs))
  }

  /** The self-reported confidences of the vision model. */
  predicate SelfReported(d: Defect) {
    d.source != FromYolo && !d.adopted && d.confidence.Some?
  }

  function SelfReports(ds: seq<Defect>): seq<int> {
    if ds == [] then []
    else
      var d := ds[|ds| - 1];
      SelfReports(ds[..|ds| - 1]) + if SelfReported(d) then [d.confidence.value] else []
  }

  /** Two or more self-reports that all say the same number. */
  predicate FlatReport(ds: seq<Defect>) {
    var confs := SelfReports(ds);
    |confs| >= 2 && forall i :: 0 <= i < |confs| ==> confs[i] == confs[0]
  }

  function Flattened(ds: seq<Defect>): (out: seq<Defect>)
    ensures |out| == |ds|
  {
    if !FlatReport(ds) then ds
    else seq(|ds|, i requires 0 <= i < |ds| => if ds[i].source != FromYolo then ds[i].(copied := true) else ds[i])
  }

  ghost function GroundedMarks(ds: seq<Defect>): (out: seq<Defect>)
    ensures |out| == |ds|
  {
    Grounding.Marked(ds, Grounding.UngroundedPositions(ds))
  }

  // --- The evidence check --------------------------------------------------------------------------------

  function VerdictAt(verdicts: seq<Verdict>, i: nat): Verdict {
    if i < |verdicts| then verdicts[i] else LlmError
  }

  function StatusOf(cfg: Config, d: Defect, v: Verdict): VerifyStatus {
    if d.source == FromYolo && d.confidence.Some? && d.confidence.value >= cfg.exemptConf then ExemptHighConf
    else if d.bbox.None? || !(0 <= Grounding.Shot(d) < cfg.imageCount) then SkippedNoBBox
    else if d.ungrounded then SkippedUngrounded
    else match v
      case CropFailed => SkippedCropFailed
      case LlmError => SkippedLlmError
      case Yes => Confirmed
      case No => Rejected
      case CannotTell => Unclear
  }

  predicate Dismisses(cfg: Config, s: VerifyStatus) {
    s == Rejected || (s == Unclear && cfg.unclearExcludes)
  }

  function Check(cfg: Config, d: Defect, v: Verdict): Defect {
    var s := StatusOf(cfg, d, v);
    d.(verify := s, suspect := d.suspect || Dismisses(cfg, s))
  }

  /** The check needs a model, a defect and an image. */
  predicate CanCheck(cfg: Config, ds: seq<Defect>) {
    cfg.llmAvailable && ds != [] && cfg.imageCount > 0
  }

  function Checked(cfg: Config, ds: seq<Defect>, verdicts: seq<Verdict>): (out: seq<Defect>)
    ensures |out| == |ds|
  {
    if !CanCheck(cfg, ds) then ds
    else seq(|ds|, i requires 0 <= i < |ds| => Check(cfg, ds[i], VerdictAt(verdicts, i)))
  }

  // --- The whole reading -----------------------------------------------------------------------------------

  /** The update of a pass that did not fail. */
  datatype Outcome = Outcome(isMint: bool, defects: seq<Defect>, invalid: set<int>)

  /** What is known before adoption: the reading, or the old defects when nothing is read. */
  function Taken(cfg: Config, before: seq<Defect>, answer: VlmAnswer): Outcome
    requires Reads(cfg, before) ==> answer.Reading?
  {
    if !Reads(cfg, before) then Outcome(before == [], before, {})
    else
      var invalid := InvalidShots(cfg, answer.invalid);
      var hits := FromHits(cfg, invalid, answer.doodles);
      Outcome(answer.isMint && hits == [], FromReports(answer.reported) + hits, invalid)
  }

  /** The vision model is asked only when it exists, nothing is known yet and there is an image. */
  predicate Reads(cfg: Config, before: seq<Defect>) {
    cfg.llmAvailable && before == [] && cfg.imageCount > 0
  }

  function Judged(cfg: Config, cs: seq<Candidate>, taken: Outcome): Outcome {
    var adopted := if cfg.wearAutoAdopt then AdoptAll(taken.defects, cs) else taken.defects;
    Outcome(taken.isMint && |adopted| == |taken.defects|, WithoutInnerWear(adopted), taken.invalid)
  }

  ghost function Screened(cfg: Config, cs: seq<Candidate>, verdicts: seq<Verdict>, ds: seq<Defect>): seq<Defect> {
    Checked(cfg, GroundedMarks(Flattened(Sourced(ds, cs))), verdicts)
  }

  /** The defects, the mint flag and the unreadable shots that the vision agent writes into the state. */
  ghost function Looked(cfg: Config, cs: seq<Candidate>, before: seq<Defect>, answer: VlmAnswer, verdicts: seq<Verdict>): Outcome
    requires Reads(cfg, before) ==> answer.Reading?
  {
    var judged := Judged(cfg, cs, Taken(cfg, before, answer));
    judged.(defects := Screened(cfg, cs, verdicts, judged.defects))
  }
}
