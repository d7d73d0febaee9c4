/**
 What a report costs, in its own terms: the area of a box, the price of each kind of defect, how prices add up, and when
 a worse report lowers the score (app/ai/agents/policy.py with the matrix of app/core/ubci_matrix.py).
 */
module Pricing {
  import opened Options
  import opened Defects
  import opened UbciMatrix
  import opened EdgeWear
  import opened Scoring
  import opened ScoringLaws
  import Bags

  // --- The ratio that a defect shows ------------------------------------------------------------

  /** A box with four limits and a positive area. */
  predicate ProperBox(b: BBox) {
    b.Complete() && b.xmin.value < b.xmax.value && b.ymin.value < b.ymax.value
  }

  predicate HasProperBox(d: Defect) {
    d.bbox.Some? && ProperBox(d.bbox.value)
  }

  function AreaOf(b: BBox): int
    requires ProperBox(b)
  {
    (b.xmax.value - b.xmin.value) * (b.ymax.value - b.ymin.value)
  }

  /** The nearest percentage of a frame of 1000 by 1000, but at least 1; halfway the even one. */
  predicate IsAreaPercent(area: int, p: int) {
    && p >= 1
    && (area < 10_000 ==> p == 1)
    && (area >= 10_000 ==>
          && 20_000 * p - 10_000 <= 2 * area <= 20_000 * p + 10_000
          && (2 * area == 20_000 * p - 10_000 || 2 * area == 20_000 * p + 10_000 ==> p % 2 == 0))
  }

  lemma AreaIsPositive(w: int, h: int)
    requires w > 0 && h > 0
    ensures w * h > 0
  {
  }

  /** A defect without a reported ratio shows the area of its box, and without a proper box the default. */
  lemma ShownRatio(d: Defect, default: int)
    ensures d.ratio > 0 ==> EffectiveRatio(d, default) == d.ratio
    ensures d.ratio <= 0 && !HasProperBox(d) ==> EffectiveRatio(d, default) == default
    ensures d.ratio <= 0 && HasProperBox(d) ==>
              forall p :: EffectiveRatio(d, default) == p <==> IsAreaPercent(AreaOf(d.bbox.value), p)
  {
    if d.ratio <= 0 && HasProperBox(d) {
      var b := d.bbox.value;
      var w, h := b.xmax.value - b.xmin.value, b.ymax.value - b.ymin.value;
      AreaIsPositive(w, h);
      RoundedIsPercent(w * h);
      assert EffectiveRatio(d, default) == AreaPercent(w, h);
    }
  }

  lemma RoundedIsPercent(area: nat)
    requires area > 0
    ensures var r := if RoundTenThousandths(area) < 1 then 1 else RoundTenThousandths(area);
            forall p :: r == p <==> IsAreaPercent(area, p)
  {
  }

  // --- A worse report ------------------------------------------------------------------------------

  /** The ratio that the policy goes by. */
  function Shown(d: Defect): int {
    EffectiveRatio(d, if d.kind.Wear? then 0 else 5)
  }

  /** The tier of an area. */
  function Tier(ratio: int): nat {
    if ratio < 5 then 0 else if ratio < 15 then 1 else 2
  }

  /** The same defect in the same place, reported no better. */
  predicate AsBad(d: Defect, e: Defect) {
    && e.kind == d.kind && e.suspect == d.suspect && PlaceOf(e) == PlaceOf(d)
    && Tier(Shown(d)) <= Tier(Shown(e)) && d.level.GetOr(1) <= e.level.GetOr(1) && d.pages <= e.pages
    && (d.textOverlap ==> e.textOverlap)
  }

  predicate AllAsBad(a: seq<Defect>, b: seq<Defect>) {
    |a| == |b| && forall i :: 0 <= i < |a| ==> AsBad(a[i], b[i])
  }

  lemma TierForIsMonotone(rule: DeductionRule, ratio: int, ratio': int)
    requires Tier(ratio) <= Tier(ratio') && rule.minor <= rule.moderate <= rule.severe
    ensures TierFor(rule, ratio) <= TierFor(rule, ratio')
  {
  }

  lemma RulesRise(kind: Kind)
    ensures RuleFor(kind).minor <= RuleFor(kind).moderate <= RuleFor(kind).severe
  {
  }

  lemma SingleIsMonotone(d: Defect, e: Defect, workbook: bool)
    requires AsBad(d, e) && !Fatal(e)
    ensures Single(d, workbook) <= Single(e, workbook)
  {
    if !d.suspect && !d.kind.Wear? {
      RulesRise(d.kind);
      TierForIsMonotone(RuleFor(d.kind), EffectiveRatio(d, 5), EffectiveRatio(e, 5));
      TierForIsMonotone(STAIN, EffectiveRatio(d, 5), EffectiveRatio(e, 5));
    }
  }

  lemma FatalIsMonotone(a: seq<Defect>, b: seq<Defect>)
    requires AllAsBad(a, b)
    ensures AnyFatal(a) ==> AnyFatal(b)
  {
    if AnyFatal(a) {
      var i :| 0 <= i < |a| && Fatal(a[i]);
      assert b[i] in b && AsBad(a[i], b[i]) && Fatal(b[i]);
    }
  }

  lemma SameGroups(a: seq<Defect>, b: seq<Defect>)
    requires AllAsBad(a, b)
    ensures AnyWear(a) ==> AnyWear(b)
    ensures AnyDoodle(a) ==> AnyDoodle(b)
  {
    if AnyWear(a) {
      var i :| 0 <= i < |a| && ActiveWear(a[i]);
      assert AsBad(a[i], b[i]) && b[i] in b && ActiveWear(b[i]);
    }
    if AnyDoodle(a) {
      var i :| 0 <= i < |a| && ActiveDoodle(a[i]);
      assert AsBad(a[i], b[i]) && b[i] in b && ActiveDoodle(b[i]);
    }
  }

  lemma SameCorners(a: seq<Defect>, b: seq<Defect>)
    requires AllAsBad(a, b)
    ensures CoverCorners(a) <= CoverCorners(b) && WildcardRows(a) <= WildcardRows(b)
  {
    forall c | c in CoverCorners(a)
      ensures c in CoverCorners(b)
    {
      var i :| 0 <= i < |a| && Counted(a[i]) && PlaceOf(a[i]) == AtCorner(c);
      assert AsBad(a[i], b[i]) && b[i] in b && Counted(b[i]);
    }
    forall row | row in WildcardRows(a)
      ensures row in WildcardRows(b)
    {
      var i :| 0 <= i < |a| && Counted(a[i]) && PlaceOf(a[i]) == InRow(row);
      assert AsBad(a[i], b[i]) && b[i] in b && Counted(b[i]);
    }
  }

  lemma SpotsIn(a: seq<Defect>, b: seq<Defect>)
    requires CoverCorners(a) <= CoverCorners(b) && WildcardRows(a) <= WildcardRows(b)
    ensures |WornCorners(a)| <= |WornCorners(b)|
  {
    CornerCount(a);
    CornerCount(b);
    SpotsMonotone(CoverCorners(a), WildcardRows(a), CoverCorners(b), WildcardRows(b), Top);
    SpotsMonotone(CoverCorners(a), WildcardRows(a), CoverCorners(b), WildcardRows(b), Mid);
    SpotsMonotone(CoverCorners(a), WildcardRows(a), CoverCorners(b), WildcardRows(b), Bottom);
  }

  /** Nothing soaked is counted with the wear. */
  predicate NothingSoaked(ds: seq<Defect>) {
    forall d :: d in ds && !d.suspect ==> !d.kind.Wet?
  }

  lemma {:induction false} MaxRatioIsMonotone(a: seq<Defect>, b: seq<Defect>)
    requires AllAsBad(a, b) && NothingSoaked(b)
    ensures Tier(MaxRatio(a)) <= Tier(MaxRatio(b))
  {
    if a == [] {
    } else {
      var n := |a| - 1;
      MaxRatioIsMonotone(a[..n], b[..n]);
      assert AsBad(a[n], b[n]) && b[n] in b;
    }
  }

  lemma WearIsMonotone(a: seq<Defect>, b: seq<Defect>)
    requires AllAsBad(a, b) && NothingSoaked(b)
    ensures WearDeduction(a) <= WearDeduction(b)
  {
    SameCorners(a, b);
    SpotsIn(a, b);
    MaxRatioIsMonotone(a, b);
    WearValueInTiers(|WornCorners(a)|, MaxRatio(a), |WornCorners(b)|, MaxRatio(b));
  }

  lemma WearValueInTiers(corners: nat, ratio: int, corners': nat, ratio': int)
    requires corners <= corners' && Tier(ratio) <= Tier(ratio')
    ensures WearValue(corners, ratio) <= WearValue(corners', ratio')
  {
  }

  /** No defect reported better: no higher score. */
  lemma AsBadScoresNoHigher(a: seq<Defect>, b: seq<Defect>, workbook: bool)
    requires AllAsBad(a, b)
    ensures Score(b, workbook) <= Score(a, workbook)
  {
    PerfectScore(a, workbook);
    if !AnyFatal(b) {
      FatalIsMonotone(a, b);
      SameGroups(a, b);
      SinglesAreMonotone(a, b, workbook);
      NotFatalIsDry(b);
      WearIsMonotone(a, b);
    }
  }

  lemma SinglesAreMonotone(a: seq<Defect>, b: seq<Defect>, workbook: bool)
    requires AllAsBad(a, b) && !AnyFatal(b)
    ensures Singles(a, workbook) <= Singles(b, workbook)
  {
    forall i | 0 <= i < |a|
      ensures Cost(workbook)(a[i]) <= Cost(workbook)(b[i])
    {
      assert b[i] in b;
      SingleIsMonotone(a[i], b[i], workbook);
    }
    Bags.SumPointwise(a, b, Cost(workbook), Cost(workbook));
  }

  lemma NotFatalIsDry(ds: seq<Defect>)
    requires !AnyFatal(ds)
    ensures NothingSoaked(ds)
  {
    forall d | d in ds && !d.suspect
      ensures !d.kind.Wet?
    {
      assert !Fatal(d);
    }
  }

  /** The same defect with another report of its size. */
  predicate ReportedAnew(d: Defect, e: Defect) {
    e == d.(ratio := e.ratio, level := e.level, pages := e.pages, textOverlap := e.textOverlap)
  }

  /** In every book the new report costs no less. */
  ghost predicate NeverRaises(d: Defect, e: Defect) {
    forall ds: seq<Defect>, i: nat, workbook: bool ::
      i < |ds| && ds[i] == d ==> Score(ds[i := e], workbook) <= Score(ds, workbook)
  }

  lemma AsBadNeverRaises(d: Defect, e: Defect)
    requires AsBad(d, e)
    ensures NeverRaises(d, e)
  {
    forall ds: seq<Defect>, i: nat, workbook: bool | i < |ds| && ds[i] == d
      ensures Score(ds[i := e], workbook) <= Score(ds, workbook)
    {
      AsBadScoresNoHigher(ds, ds[i := e], workbook);
    }
  }

  /** A larger ratio, level or page count, or scribbles over the text, never raise the score; a ratio must not be less
      than the one that the defect showed without it. */
  lemma WorseReportNeverRaises(d: Defect, e: Defect)
    requires ReportedAnew(d, e) && d.level.GetOr(1) <= e.level.GetOr(1) && d.pages <= e.pages
    requires d.textOverlap ==> e.textOverlap
    requires d.ratio == e.ratio || (e.ratio > 0 && Tier(Shown(d)) <= Tier(e.ratio))
    ensures NeverRaises(d, e)
  {
    AsBadNeverRaises(d, e);
  }

  /** Kinds that pay for their area in three tiers. */
  predicate ThreeTiers(kind: Kind) {
    kind.Wear? || kind.Stain? || kind.Scratch? || kind.Tear? || kind.Sticker? || kind.Crush? || kind.Other?
  }

  /** A reported ratio never raises the score exactly when its tier is not below the tier that was shown before. */
  lemma RatioNeverRaisesIff(d: Defect, ratio: int)
    requires ratio > 0 && !d.suspect && ThreeTiers(d.kind)
    ensures NeverRaises(d, d.(ratio := ratio)) <==> Tier(Shown(d)) <= Tier(ratio)
  {
    var e := d.(ratio := ratio);
    if Tier(Shown(d)) <= Tier(ratio) {
      WorseReportNeverRaises(d, e);
    } else {
      LowerTierRaises(d, e);
    }
  }

  lemma LowerTierRaises(d: Defect, e: Defect)
    requires !d.suspect && ThreeTiers(d.kind) && e == d.(ratio := e.ratio) && Tier(Shown(e)) < Tier(Shown(d))
    ensures !NeverRaises(d, e)
  {
    LowerTierScoresHigher(d, e);
    assert [d][0] == d && [d][0 := e] == [e];
  }

  // --- The price list -----------------------------------------------------------------------------------

  function ByArea(ratio: int, minor: nat, moderate: nat, severe: nat): nat {
    if ratio < 5 then minor else if ratio < 15 then moderate else severe
  }

  /** Half as much again over printed text, cut to a whole number. */
  function OverText(d: Defect, base: nat): nat {
    if d.textOverlap then base + base / 2 else base
  }

  lemma OneDefect(d: Defect, workbook: bool)
    ensures Singles([d], workbook) == Single(d, workbook)
    ensures (AnyWear([d]) <==> ActiveWear(d)) && (AnyDoodle([d]) <==> ActiveDoodle(d)) && (AnyFatal([d]) <==> Fatal(d))
  {
    assert [d][..0] == [];
    assert Singles([d], workbook) == Bags.Sum([d][..0], Cost(workbook)) + Cost(workbook)(d);
    assert d in [d];
  }

  /** What a book with one defect that counts loses, by what is reported of it. */
  function ListPrice(d: Defect, workbook: bool): nat {
    var p := Shown(d);
    match d.kind
    case Wet(_) => 100
    case Wear => ByArea(p, 3, 5, 10)
    case Doodle => if workbook then 15 else OverText(d, if d.pages > 5 then 15 else 10)
    case Stain => ByArea(p, 5, 10, 20)
    case Discolor => if d.level.GetOr(1) >= 3 then 10 else if d.level.GetOr(1) == 2 then 5 else 2
    case Scratch => OverText(d, ByArea(p, 2, 5, 10))
    case Tear => OverText(d, ByArea(p, 5, 10, 15))
    case Sticker => OverText(d, ByArea(p, 2, 3, 5))
    case Crush => OverText(d, ByArea(p, 3, 5, 10))
    case Spine => OverText(d, ByArea(p, 5, 5, 10))
    case Binding => if p >= 15 then 100 else OverText(d, 10)
    case Signature => OverText(d, 10)
    case Stamp => OverText(d, 15)
    case Other => OverText(d, ByArea(p, 2, 5, 8))
  }

  lemma OneCorner(d: Defect)
    requires Counted(d)
    ensures |WornCorners([d])| == 1
  {
    NoCorner();
    assert [] + [d] == [d];
    OneMoreDetection([], d);
  }

  lemma NoCorner()
    ensures CoverCorners([]) == {} && WildcardRows([]) == {} && |WornCorners([])| == 0
  {
    CornerCount([]);
  }

  lemma RatioAlone(d: Defect)
    requires Counted(d)
    ensures MaxRatio([d]) == EffectiveRatio(d, 0)
  {
    assert [d][..0] == [];
    assert MaxRatio([d][..0]) == 0;
    ShownRatio(d, 0);
    assert EffectiveRatio(d, 0) >= 0;
  }

  lemma WearAlone(d: Defect)
    requires ActiveWear(d)
    ensures WearDeduction([d]) == ByArea(Shown(d), 3, 5, 10)
  {
    OneCorner(d);
    RatioAlone(d);
    WearOfOneCorner(MaxRatio([d]));
  }

  lemma WearOfOneCorner(ratio: int)
    ensures WearValue(1, ratio) == ByArea(ratio, 3, 5, 10)
  {
  }

  lemma SinglePrice(d: Defect, workbook: bool)
    requires !d.suspect && !Fatal(d) && !d.kind.Wear? && !(workbook && d.kind.Doodle?)
    ensures Single(d, workbook) == ListPrice(d, workbook)
  {
    match d.kind
    case Doodle =>
    case Stain =>
    case Discolor =>
    case _ =>
  }

  lemma FatalPrice(d: Defect, workbook: bool)
    requires !d.suspect
    ensures Fatal(d) <==> ListPrice(d, workbook) == 100
  {
  }

  /** The price list holds. */
  lemma PriceOfOne(d: Defect, workbook: bool)
    requires !d.suspect
    ensures Score([d], workbook) == 100 - ListPrice(d, workbook)
  {
    OneDefect(d, workbook);
    FatalPrice(d, workbook);
    if Fatal(d) {
    } else if d.kind.Wear? {
      WearAlone(d);
    } else if workbook && d.kind.Doodle? {
      assert Total([d], workbook) == 15;
    } else {
      SinglePrice(d, workbook);
      assert Total([d], workbook) == Single(d, workbook);
    }
  }

  lemma LowerTierScoresHigher(d: Defect, e: Defect)
    requires !d.suspect && ThreeTiers(d.kind) && e == d.(ratio := e.ratio) && Tier(Shown(e)) < Tier(Shown(d))
    ensures Score([e], false) > Score([d], false)
  {
    PriceOfOne(d, false);
    PriceOfOne(e, false);
  }

  // --- Area in place of a ratio --------------------------------------------------------------------------

  /** The score of a book whose defect has a box and no reported ratio is that of the same book with the area of the box
      reported. */
  lemma AreaCountsAsReported(ds: seq<Defect>, i: nat, p: int, workbook: bool)
    requires i < |ds| && ds[i].ratio <= 0 && HasProperBox(ds[i]) && IsAreaPercent(AreaOf(ds[i].bbox.value), p)
    ensures Score(ds[i := ds[i].(ratio := p)], workbook) == Score(ds, workbook)
  {
    ShownRatio(ds[i], if ds[i].kind.Wear? then 0 else 5);
    SameShownSameScore(ds, i, p, workbook);
  }

  /** Without a proper box an unreported ratio counts as 5 percent, for wear as less. */
  lemma NoAreaCountsAsFive(ds: seq<Defect>, i: nat, workbook: bool)
    requires i < |ds| && ds[i].ratio <= 0 && !HasProperBox(ds[i])
    ensures Score(ds[i := ds[i].(ratio := if ds[i].kind.Wear? then 1 else 5)], workbook) == Score(ds, workbook)
  {
    ShownRatio(ds[i], if ds[i].kind.Wear? then 0 else 5);
    SameShownSameScore(ds, i, if ds[i].kind.Wear? then 1 else 5, workbook);
  }

  lemma SameShownSameScore(ds: seq<Defect>, i: nat, p: int, workbook: bool)
    requires i < |ds| && p > 0 && Tier(Shown(ds[i])) == Tier(p)
    ensures Score(ds[i := ds[i].(ratio := p)], workbook) == Score(ds, workbook)
  {
    var out := ds[i := ds[i].(ratio := p)];
    AsBadScoresNoHigher(ds, out, workbook);
    AsBadScoresNoHigher(out, ds, workbook);
  }

  // --- Prices add up ---------------------------------------------------------------------------------------

  predicate NoActiveWear(ds: seq<Defect>) {
    forall d :: d in ds ==> d.suspect || !d.kind.Wear?
  }

  predicate NoActiveScribble(ds: seq<Defect>) {
    forall d :: d in ds ==> d.suspect || !d.kind.Doodle?
  }

  predicate NothingCounted(ds: seq<Defect>) {
    forall d :: d in ds ==> !Counted(d)
  }

  /** No group has members in both lists: wear on one side only, scribbles of a workbook on one side only. */
  predicate GroupsApart(a: seq<Defect>, b: seq<Defect>, workbook: bool) {
    && (NoActiveWear(a) || NoActiveWear(b))
    && (!workbook || NoActiveScribble(a) || NoActiveScribble(b))
  }

  lemma AnyConcat(a: seq<Defect>, b: seq<Defect>)
    ensures AnyFatal(a + b) <==> AnyFatal(a) || AnyFatal(b)
    ensures AnyWear(a + b) <==> AnyWear(a) || AnyWear(b)
    ensures AnyDoodle(a + b) <==> AnyDoodle(a) || AnyDoodle(b)
  {
    assert forall d :: d in a + b <==> d in a || d in b;
  }

  lemma {:induction false} MaxRatioIgnores(a: seq<Defect>, b: seq<Defect>)
    requires NothingCounted(b)
    ensures MaxRatio(a + b) == MaxRatio(a)
  {
    if b == [] {
      assert a + b == a;
    } else {
      var n := |b| - 1;
      assert (a + b)[..|a| + n] == a + b[..n] && b[n] in b;
      MaxRatioIgnores(a, b[..n]);
    }
  }

  lemma {:induction false} MaxRatioIgnoresBefore(a: seq<Defect>, b: seq<Defect>)
    requires NothingCounted(a)
    ensures MaxRatio(a + b) == MaxRatio(b)
  {
    if b == [] {
      assert [] + a == a + b;
      MaxRatioIgnores([], a);
    } else {
      var n := |b| - 1;
      assert (a + b)[..|a| + n] == a + b[..n];
      MaxRatioIgnoresBefore(a, b[..n]);
    }
  }

  /** The wear of a book is that of the part that has any. */
  lemma WearIgnores(a: seq<Defect>, b: seq<Defect>)
    ensures NothingCounted(b) ==> WearDeduction(a + b) == WearDeduction(a)
    ensures NothingCounted(a) ==> WearDeduction(a + b) == WearDeduction(b)
  {
    assert forall d :: d in a + b <==> d in a || d in b;
    if NothingCounted(b) {
      MaxRatioIgnores(a, b);
      assert CoverCorners(a + b) == CoverCorners(a) && WildcardRows(a + b) == WildcardRows(a);
    }
    if NothingCounted(a) {
      MaxRatioIgnoresBefore(a, b);
      assert CoverCorners(a + b) == CoverCorners(b) && WildcardRows(a + b) == WildcardRows(b);
    }
  }

  lemma OnlyWearCounts(ds: seq<Defect>)
    requires !AnyFatal(ds) && !AnyWear(ds)
    ensures NothingCounted(ds)
  {
    forall d | d in ds
      ensures !Counted(d)
    {
      assert !Fatal(d) && !ActiveWear(d);
    }
  }

  lemma TotalsAddUp(a: seq<Defect>, b: seq<Defect>, workbook: bool)
    requires GroupsApart(a, b, workbook) && !AnyFatal(a) && !AnyFatal(b)
    ensures Total(a + b, workbook) == Total(a, workbook) + Total(b, workbook)
  {
    AnyConcat(a, b);
    Bags.SumConcat(a, b, Cost(workbook));
    WearOfBoth(a, b);
    assert !(workbook && AnyDoodle(a) && AnyDoodle(b));
  }

  function WearOf(ds: seq<Defect>): nat {
    if AnyWear(ds) then WearDeduction(ds) else 0
  }

  lemma WearOfBoth(a: seq<Defect>, b: seq<Defect>)
    requires (NoActiveWear(a) || NoActiveWear(b)) && !AnyFatal(a) && !AnyFatal(b)
    ensures WearOf(a + b) == WearOf(a) + WearOf(b)
  {
    AnyConcat(a, b);
    WearIgnores(a, b);
    if !AnyWear(a) {
      OnlyWearCounts(a);
    }
    if !AnyWear(b) {
      OnlyWearCounts(b);
    }
    assert !(AnyWear(a) && AnyWear(b));
  }

  /** Of two lists that share no group, each takes from the book what it takes alone. */
  lemma ScoresAddUp(a: seq<Defect>, b: seq<Defect>, workbook: bool)
    requires GroupsApart(a, b, workbook)
    ensures var sum := Score(a, workbook) + Score(b, workbook) - 100;
            Score(a + b, workbook) == if sum < 0 then 0 else sum
  {
    AnyConcat(a, b);
    PerfectScore(a, workbook);
    PerfectScore(b, workbook);
    if !AnyFatal(a) && !AnyFatal(b) {
      TotalsAddUp(a, b, workbook);
    }
  }

  function Price(workbook: bool): Defect -> nat {
    (d: Defect) => if d.suspect then 0 else ListPrice(d, workbook)
  }

  lemma PriceOrNothing(d: Defect, workbook: bool)
    ensures Score([d], workbook) == 100 - Price(workbook)(d)
  {
    if d.suspect {
      PerfectScore([d], workbook);
    } else {
      PriceOfOne(d, workbook);
    }
  }

  /** A book without wear, and without scribbles if it is a workbook, loses the listed price of every defect, down to 0
      points. */
  lemma {:induction false} PricesAddUp(ds: seq<Defect>, workbook: bool)
    requires NoActiveWear(ds) && (workbook ==> NoActiveScribble(ds))
    ensures var sum := Bags.Sum(ds, Price(workbook));
            Score(ds, workbook) == if sum > 100 then 0 else 100 - sum
  {
    if ds == [] {
      PerfectScore([], workbook);
    } else {
      var n := |ds| - 1;
      PricesAddUp(ds[..n], workbook);
      PriceOrNothing(ds[n], workbook);
      assert ds[n] in ds;
      ScoresAddUp(ds[..n], [ds[n]], workbook);
      assert ds == ds[..n] + [ds[n]];
    }
  }

  /** A book with wear alone loses the price of its largest area, and 2 points for every corner but one, up to 15. */
  lemma WornBookScores(ds: seq<Defect>, workbook: bool)
    requires ds != [] && forall d :: d in ds ==> d.kind.Wear? && !d.suspect
    ensures var loss := ByArea(MaxRatio(ds), 3, 5, 10) + 2 * (|WornCorners(ds)| - 1);
            |WornCorners(ds)| >= 1 && Score(ds, workbook) == 100 - if loss > 15 then 15 else loss
  {
    assert ds[0] in ds && ActiveWear(ds[0]);
    GroupsHaveNoSingles(ds, workbook);
    OneCorner(ds[0]);
    MoreWearMoreCorners([ds[0]], ds);
    WearInPoints(|WornCorners(ds)|, MaxRatio(ds));
  }

  lemma WearInPoints(corners: nat, ratio: int)
    requires corners >= 1
    ensures var loss := ByArea(ratio, 3, 5, 10) + 2 * (corners - 1);
            WearValue(corners, ratio) == if loss > 15 then 15 else loss
  {
  }

  // --- The charges that are shown --------------------------------------------------------------------------

  /** In a book without a fatal defect every defect outside the groups shows its listed price, a scribble of a workbook the
      15 points of all of them, and a dismissed one 0. */
  lemma ShownCharges(ds: seq<Defect>, workbook: bool, i: nat)
    requires i < |ds| && !AnyFatal(ds) && NoStrayGroup(ds)
    ensures var c := Charged(ds, workbook)[i].charge;
            && (ds[i].suspect ==> c.applied == Some(0) && c.scope == Some(Excluded))
            && (!ds[i].suspect && workbook && ds[i].kind.Doodle? ==> c == Charge(Some(Group), Some(WorkbookDoodleGroup), Some(15)))
            && (!ds[i].suspect && !ds[i].kind.Wear? && !(workbook && ds[i].kind.Doodle?) ==>
                  c.scope == Some(SingleItem) && c.applied == Some(ListPrice(ds[i], workbook)))
  {
    ChargedAt(ds, workbook, i);
    assert ds[i] in ds;
    if !ds[i].suspect && !ds[i].kind.Wear? && !(workbook && ds[i].kind.Doodle?) {
      SinglePrice(ds[i], workbook);
    }
  }

  lemma {:induction false} HandledUpTo(ds: seq<Defect>, j: nat)
    requires j < |ds| && Fatal(ds[j])
    ensures Handled(ds) <= j
  {
    if j > 0 && !Fatal(ds[0]) {
      HandledUpTo(ds[1..], j - 1);
    }
  }

  /** A fatal defect ends the charging: neither it nor a fresh defect after it shows any. */
  lemma NoChargeAfterFatal(ds: seq<Defect>, workbook: bool, j: nat, i: nat)
    requires j <= i < |ds| && Fatal(ds[j]) && ds[i].charge == UNCHARGED
    ensures Charged(ds, workbook)[i] == ds[i]
  {
    HandledUpTo(ds, j);
    assert Looped(ds, workbook, Handled(ds))[i] == ds[i];
  }
}
