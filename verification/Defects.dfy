/**
 A reported defect: what the vision model says about it, the marks that later passes put
 on it, and the deduction that the policy stamps into it.
 */
module Defects {
  import opened Options

  // --- Defect types -------------------------------------------------------------------

  /** The branch of the scoring loop that a type string takes. Wet remembers whether the
      string also names wear, because the wear profile tests only for wear. */
  datatype Kind =
    | Wet(alsoWear: bool) | Wear | Doodle | Stain | Discolor | Scratch | Tear | Sticker
    | Crush | Spine | Binding | Signature | Stamp | Other

  predicate OccursAt(text: string, word: string, i: nat) {
    i + |word| <= |text| && text[i..i + |word|] == word
  }

  /** Python's `word in text`. */
  predicate Mentions(text: string, word: string) {
    exists i: nat | i <= |text| :: OccursAt(text, word, i)
  }

  predicate MentionsAny(text: string, words: seq<string>) {
    exists k :: 0 <= k < |words| && Mentions(text, words[k])
  }

  /** The branch order of the scoring loop in app/ai/agents/policy.py. */
  function Classify(dtype: string): Kind {
    var wear := MentionsAny(dtype, ["WEAR", "마모"]);
    if MentionsAny(dtype, ["WET", "WATER", "WARPING", "침수", "휨"]) then Wet(wear)
    else if wear then Wear
    else if MentionsAny(dtype, ["DOODLE", "필기", "낙서"]) then Doodle
    else if MentionsAny(dtype, ["STAIN", "오염", "얼룩"]) then Stain
    else if MentionsAny(dtype, ["DISCOLOR", "변색", "황변"]) then Discolor
    else if MentionsAny(dtype, ["SCRATCH", "긁힘", "스크래치"]) then Scratch
    else if MentionsAny(dtype, ["TEAR", "찢어짐", "찢김"]) then Tear
    else if MentionsAny(dtype, ["STICKER", "스티커"]) then Sticker
    else if MentionsAny(dtype, ["CRUSH", "찍힘", "구겨짐", "찌그러짐"]) then Crush
    else if MentionsAny(dtype, ["SPINE", "갈라짐"]) then Spine
    else if MentionsAny(dtype, ["BINDING", "제본"]) then Binding
    else if MentionsAny(dtype, ["SIGNATURE", "서명", "이름"]) then Signature
    else if MentionsAny(dtype, ["STAMP", "도장"]) then Stamp
    else Other
  }

  const EDGE_WEAR_CODE := "DMG_EDGE_WEAR"
  const DOODLE_CODE := "DMG_INT_DOODLE"
  const WET_CODE := "DMG_EXT_WET"
  const DISCOLOR_CODE := "DMG_INT_DISCOLOR"

  // --- Defects ------------------------------------------------------------------------

  /** A box as reported: a dictionary that may lack coordinates. */
  datatype BBox = BBox(xmin: Option<int>, ymin: Option<int>, xmax: Option<int>, ymax: Option<int>) {
    predicate Complete() {
      xmin.Some? && ymin.Some? && xmax.Some? && ymax.Some?
    }
  }

  datatype ConfSource = NoSource | FromYolo | FromVlm

  datatype VerifyStatus =
    | NotVerified | ExemptHighConf | SkippedNoBBox | SkippedUngrounded | SkippedCropFailed
    | SkippedLlmError | Confirmed | Rejected | Unclear

  datatype Scope = SingleItem | Group | Excluded
  datatype GroupName = EdgeWearGroup | WorkbookDoodleGroup

  /** The keys that the policy writes into a defect. */
  datatype Charge = Charge(scope: Option<Scope>, group: Option<GroupName>, applied: Option<int>)

  const UNCHARGED := Charge(None, None, None)

  /** `kind` is `Classify(dtype)`; `confidence` counts ten-thousandths; `pages` and `textOverlap` are the
      values that the policy's fallbacks give (1 page when nothing is reported). */
  datatype Defect = Defect(
    dtype: string,
    kind: Kind,
    ratio: int,
    level: Option<int>,
    pages: int,
    textOverlap: bool,
    bbox: Option<BBox>,
    imageIndex: Option<int>,
    confidence: Option<int>,
    source: ConfSource,
    adopted: bool,
    copied: bool,
    ungrounded: bool,
    verify: VerifyStatus,
    suspect: bool,
    charge: Charge)

  // --- Effective area ratio -------------------------------------------------------------

  /** Python's `round(n / 10000)` for n >= 0: to nearest, ties to even. */
  function RoundTenThousandths(n: nat): (r: nat)
    ensures 20_000 * r - 10_000 <= 2 * n <= 20_000 * r + 10_000
    ensures 2 * n == 20_000 * r + 10_000 || 2 * n == 20_000 * r - 10_000 ==> r % 2 == 0
  {
    var q, rem := n / 10_000, n % 10_000;
    if rem < 5_000 || (rem == 5_000 && q % 2 == 0) then q else q + 1
  }

  /** _effective_ratio: the reported ratio, or the area of the box, or the default. */
  function EffectiveRatio(d: Defect, default: int): int {
    if d.ratio > 0 then d.ratio
    else if d.bbox.None? || !d.bbox.value.Complete() then default
    else
      var b := d.bbox.value;
      var w, h := b.xmax.value - b.xmin.value, b.ymax.value - b.ymin.value;
      if w <= 0 || h <= 0 then default
      else AreaPercent(w, h)
  }

  /** max(1, round(w/1000 * h/1000 * 100)) */
  function AreaPercent(w: nat, h: nat): (r: int)
    ensures r >= 1
  {
    var r := RoundTenThousandths(w * h);
    if r < 1 then 1 else r
  }
}
