/**
 The UBCI deduction matrix: constants, tiers and grade boundaries
 (app/core/ubci_matrix.py), with the grade helpers of app/models/wms.py.
 */
module UbciMatrix {
  import opened Options

  const MINOR_MAX_RATIO := 5
  const MODERATE_MAX_RATIO := 15

  /** One defect kind: three area tiers, or one flat value. */
  datatype DeductionRule = DeductionRule(
    minor: nat, moderate: nat, severe: nat, flat: Option<nat>, textOverlapWeighted: bool)

  function Tiers(minor: nat, moderate: nat, severe: nat): DeductionRule {
    DeductionRule(minor, moderate, severe, None, true)
  }

  function Flat(value: nat): DeductionRule {
    DeductionRule(0, 0, 0, Some(value), true)
  }

  function TierFor(rule: DeductionRule, ratio: int): nat {
    if rule.flat.Some? then rule.flat.value
    else if ratio < MINOR_MAX_RATIO then rule.minor
    else if ratio < MODERATE_MAX_RATIO then rule.moderate
    else rule.severe
  }

  const SCRATCH := Tiers(2, 5, 10)
  const TEAR := Tiers(5, 10, 15)
  const CRUSH := Tiers(3, 5, 10)
  const STAIN := Tiers(5, 10, 20).(textOverlapWeighted := false)
  const STICKER := Tiers(2, 3, 5)
  const SPINE_CRACK := Tiers(5, 5, 10)
  const STAMP := Flat(15)
  const SIGNATURE := Flat(10)
  const DEFAULT := Tiers(2, 5, 8)
  const BINDING_LOOSE := Flat(10)
  const EDGE_WEAR := Tiers(3, 5, 10)
  const EDGE_WEAR_SPREAD_STEP := 2
  const EDGE_WEAR_CAP := 15
  const DOODLE := Tiers(10, 10, 15)
  const DOODLE_PAGE_THRESHOLD := 5
  const WORKBOOK_DOODLE_CAP := 15
  const BINDING_FATAL_RATIO := 15
  const BASE_SCORE := 100
  const APPROVE_MIN_SCORE := 65

  /** DISCOLOR_BY_LEVEL, read at a level already limited to 1..3. */
  function DiscolorByLevel(level: int): nat {
    if level <= 1 then 2 else if level == 2 then 5 else 10
  }

  /** `int(base * 1.5)` for a non-negative deduction. */
  function TextOverlapWeighted(base: nat): nat {
    3 * base / 2
  }

  datatype Grade = Mint | Good | Normal | Reject

  const GRADE_THRESHOLDS: seq<(int, Grade)> := [(95, Mint), (85, Good), (65, Normal)]

  /** grade_for: the first threshold that the score reaches. */
  function GradeFor(score: int): Grade {
    FirstReached(score, GRADE_THRESHOLDS)
  }

  function FirstReached(score: int, thresholds: seq<(int, Grade)>): Grade {
    if thresholds == [] then Reject
    else if score >= thresholds[0].0 then thresholds[0].1
    else FirstReached(score, thresholds[1..])
  }

  predicate DecisionApproves(score: int) {
    score >= APPROVE_MIN_SCORE
  }

  /** ubci_grade_from_score: a missing score reads as Normal. */
  function UbciGradeFromScore(score: Option<int>): Grade {
    match score
    case None => Normal
    case Some(n) => if n >= 95 then Mint else if n >= 85 then Good else if n >= 65 then Normal else Reject
  }

  /** UBCI_GRADE_SCORE_BANDS. */
  function Band(grade: Grade): (int, int) {
    match grade
    case Mint => (95, 100)
    case Good => (85, 94)
    case Normal => (65, 84)
    case Reject => (0, 64)
  }

  /** clamp_ubci_score_to_grade for a grade that has a band. */
  function ClampScoreToGrade(score: Option<int>, grade: Grade): int {
    var (lo, hi) := Band(grade);
    match score
    case None => hi
    case Some(n) => if n < lo then lo else if n > hi then hi else n
  }

  /** The matrix and the stored-grade helper draw the same boundaries, and a book is approved exactly when it has a grade. */
  lemma GradeTablesAgree(score: int)
    ensures GradeFor(score) == UbciGradeFromScore(Some(score))
    ensures DecisionApproves(score) <==> GradeFor(score) != Reject
  {
    var t := GRADE_THRESHOLDS;
    assert t[1..] == [(85, Good), (65, Normal)];
    assert t[1..][1..] == [(65, Normal)];
    assert t[1..][1..][1..] == [];
    assert FirstReached(score, t[1..][1..]) == if score >= 65 then Normal else Reject;
    assert FirstReached(score, t[1..]) == if score >= 85 then Good else FirstReached(score, t[1..][1..]);
  }

  /** A human-confirmed grade fixes the score: it reads back as that grade, a score already in the band is kept, and no score of the grade is nearer. */
  lemma ClampedScoreReadsAsGrade(score: Option<int>, grade: Grade)
    ensures var r := ClampScoreToGrade(score, grade);
            && UbciGradeFromScore(Some(r)) == grade
            && 0 <= r <= 100
            && ClampScoreToGrade(Some(r), grade) == r
    ensures score.None? ==> forall m: int :: 0 <= m <= 100 && UbciGradeFromScore(Some(m)) == grade ==> m <= ClampScoreToGrade(score, grade)
    ensures forall n, m: int :: score == Some(n) && 0 <= m <= 100 && UbciGradeFromScore(Some(m)) == grade ==>
              var r := ClampScoreToGrade(score, grade);
              (if r < n then n - r else r - n) <= (if m < n then n - m else m - n)
  {
  }
}
