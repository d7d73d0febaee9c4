/**
 Stage A of the policy agent (app/ai/agents/policy.py): the scoring loop, against an
 order-free reading of the deduction matrix.
 */
module Scoring {
  import opened Options
  import opened Defects
  import opened UbciMatrix
  import opened EdgeWear
  import Bags

  // --- The score without an order ---------------------------------------------------------

  predicate Fatal(d: Defect) {
    && !d.suspect
    && (d.kind.Wet? || (d.kind.Binding? && EffectiveRatio(d, 5) >= BINDING_FATAL_RATIO))
  }

  predicate ActiveWear(d: Defect) {
    !d.suspect && d.kind.Wear?
  }

  predicate ActiveDoodle(d: Defect) {
    !d.suspect && d.kind.Doodle?
  }

  /** The rules of the last branch of the loop, by kind. */
  function RuleFor(kind: Kind): DeductionRule {
    match kind
    case Scratch => SCRATCH
    case Tear => TEAR
    case Sticker => STICKER
    case Crush => CRUSH
    case Spine => SPINE_CRACK
    case Binding => BINDING_LOOSE
    case Signature => SIGNATURE
    case Stamp => STAMP
    case _ => DEFAULT
  }

  /** What a defect costs on its own account; members of a group and dismissed defects cost nothing here. */
  function Single(d: Defect, workbook: bool): nat {
    if d.suspect || d.kind.Wet? || d.kind.Wear? then 0
    else match d.kind
      case Doodle =>
        var base := if d.pages > DOODLE_PAGE_THRESHOLD then DOODLE.severe else DOODLE.minor;
        if workbook then 0 else if d.textOverlap then TextOverlapWeighted(base) else base
      case Stain => TierFor(STAIN, EffectiveRatio(d, 5))
      case Discolor => DiscolorByLevel(d.level.GetOr(1))
      case _ =>
        var rule := RuleFor(d.kind);
        var base := TierFor(rule, EffectiveRatio(d, 5));
        if d.textOverlap && rule.textOverlapWeighted then TextOverlapWeighted(base) else base
  }

  function Cost(workbook: bool): Defect -> nat {
    d => Single(d, workbook)
  }

  function Singles(ds: seq<Defect>, workbook: bool): nat {
    Bags.Sum(ds, Cost(workbook))
  }

  /** The one deduction that all worn corners share. */
  function WearDeduction(ds: seq<Defect>): (r: nat)
    ensures 3 <= r <= EDGE_WEAR_CAP
  {
    WearValue(|WornCorners(ds)|, MaxRatio(ds))
  }

  function WearValue(corners: nat, maxRatio: int): (r: nat)
    ensures 3 <= r <= EDGE_WEAR_CAP
  {
    var spread := if corners > 1 then corners else 1;
    var sum := TierFor(EDGE_WEAR, maxRatio) + (spread - 1) * EDGE_WEAR_SPREAD_STEP;
    if sum > EDGE_WEAR_CAP then EDGE_WEAR_CAP else sum
  }

  predicate AnyWear(ds: seq<Defect>) {
    exists d :: d in ds && ActiveWear(d)
  }

  predicate AnyDoodle(ds: seq<Defect>) {
    exists d :: d in ds && ActiveDoodle(d)
  }

  predicate AnyFatal(ds: seq<Defect>) {
    exists d :: d in ds && Fatal(d)
  }

  function Total(ds: seq<Defect>, workbook: bool): nat {
    Singles(ds, workbook)
    + (if AnyWear(ds) then WearDeduction(ds) else 0)
    + (if workbook && AnyDoodle(ds) then WORKBOOK_DOODLE_CAP else 0)
  }

  function Score(ds: seq<Defect>, workbook: bool): int {
    ScoreOf(AnyFatal(ds), Total(ds, workbook))
  }

  /** 0 for a fatal book, else the total taken from 100 and limited to 0..100. */
  function ScoreOf(fatal: bool, total: nat): int {
    if fatal || total > BASE_SCORE then 0 else BASE_SCORE - total
  }

  predicate AllSuspect(ds: seq<Defect>) {
    forall d :: d in ds ==> d.suspect
  }

  // --- The charges that the loop writes into the defects ------------------------------------

  /** How many defects the loop handles completely before a fatal one ends it. */
  function Handled(ds: seq<Defect>): (n: nat)
    ensures n <= |ds|
    ensures forall j :: 0 <= j < n ==> !Fatal(ds[j])
    ensures n < |ds| ==> Fatal(ds[n])
  {
    if ds == [] || Fatal(ds[0]) then 0 else 1 + Handled(ds[1..])
  }

  function LoopCharge(d: Defect, workbook: bool): Charge {
    if d.suspect then d.charge.(scope := Some(Excluded), applied := Some(0))
    else if d.kind.Wear? then d.charge.(scope := Some(Group), group := Some(EdgeWearGroup))
    else if d.kind.Doodle? && workbook then
      Charge(Some(Group), Some(WorkbookDoodleGroup), Some(WORKBOOK_DOODLE_CAP))
    else d.charge.(scope := Some(SingleItem), applied := Some(Single(d, workbook)))
  }

  /** The second pass writes the shared wear deduction into the members of the group. */
  function GroupCharge(c: Charge, wear: nat): Charge {
    if c.group != Some(EdgeWearGroup) || c.scope == Some(Excluded) then c else c.(applied := Some(wear))
  }

  /** The defects when the loop has handled the first n. */
  function Looped(ds: seq<Defect>, workbook: bool, n: nat): (out: seq<Defect>)
    ensures |out| == |ds|
  {
    seq(|ds|, i requires 0 <= i < |ds| =>
      if i < n then ds[i].(charge := LoopCharge(ds[i], workbook)) else ds[i])
  }

  function Charged(ds: seq<Defect>, workbook: bool): (out: seq<Defect>)
    ensures |out| == |ds|
  {
    var looped := Looped(ds, workbook, Handled(ds));
    if AnyWear(ds[..Handled(ds)]) then Spread(looped, WearDeduction(ds)) else looped
  }

  function Spread(ds: seq<Defect>, wear: nat): (out: seq<Defect>)
    ensures |out| == |ds|
  {
    seq(|ds|, i requires 0 <= i < |ds| => ds[i].(charge := GroupCharge(ds[i].charge, wear)))
  }

  // --- The loop -----------------------------------------------------------------------------

  /** The numbers that the policy agent derives: `items` are the lines of its deduction list. */
  datatype Assessment = Assessment(
    score: int, total: nat, items: seq<(string, nat)>, excluded: seq<string>, fatal: bool, unverified: bool)

  function ItemSum(items: seq<(string, nat)>): nat {
    Bags.Sum(items, (item: (string, nat)) => item.1)
  }

  lemma ItemSumOfOneMore(items: seq<(string, nat)>, item: (string, nat))
    ensures ItemSum(items + [item]) == ItemSum(items) + item.1
  {
    assert (items + [item])[..|items|] == items;
  }

  lemma OneMore(ds: seq<Defect>, i: nat, workbook: bool)
    requires i < |ds|
    ensures Singles(ds[..i + 1], workbook) == Singles(ds[..i], workbook) + Single(ds[i], workbook)
    ensures AnyWear(ds[..i + 1]) == (AnyWear(ds[..i]) || ActiveWear(ds[i]))
    ensures AnyDoodle(ds[..i + 1]) == (AnyDoodle(ds[..i]) || ActiveDoodle(ds[i]))
    ensures NoneSuspect(ds[..i + 1]) == (NoneSuspect(ds[..i]) && !ds[i].suspect)
  {
    assert ds[..i + 1][..i] == ds[..i];
    assert forall e :: e in ds[..i + 1] <==> e in ds[..i] || e == ds[i];
  }

  /** The branches of the loop that charge a defect by itself. */
  method SingleDeduction(d: Defect, ratio: int, workbook: bool) returns (deduction: nat)
    requires !d.suspect && !d.kind.Wet? && !d.kind.Wear? && !(d.kind.Doodle? && workbook)
    requires ratio == EffectiveRatio(d, 5)
    ensures deduction == Single(d, workbook)
  {
    if d.kind.Doodle? {
      var base := if d.pages > DOODLE_PAGE_THRESHOLD then DOODLE.severe else DOODLE.minor;
      deduction := if d.textOverlap then TextOverlapWeighted(base) else base;
    } else if d.kind.Stain? {
      deduction := TierFor(STAIN, ratio);
    } else if d.kind.Discolor? {
      var level := d.level.GetOr(1);
      level := if level < 1 then 1 else if level > 3 then 3 else level;
      deduction := DiscolorByLevel(level);
    } else {
      var rule := RuleFor(d.kind);
      var base := TierFor(rule, ratio);
      deduction := if d.textOverlap && rule.textOverlapWeighted then TextOverlapWeighted(base) else base;
    }
  }

  /** The variables that the loop carries from one defect to the next. */
  datatype Tally = Tally(
    total: nat, items: seq<(string, nat)>, excluded: seq<string>,
    edgeWearAdded: bool, doodleWorkbookAdded: bool, wearGroup: nat) {

    function Add(dtype: string, deduction: nat): Tally {
      this.(total := total + deduction, items := items + [(dtype, deduction)])
    }
  }

  /** What a defect adds to the total when the groups seen so far are known. */
  function Increase(d: Defect, workbook: bool, wear: nat, wearSeen: bool, doodleSeen: bool): nat {
    Single(d, workbook)
    + (if ActiveWear(d) && !wearSeen then wear else 0)
    + (if workbook && ActiveDoodle(d) && !doodleSeen then WORKBOOK_DOODLE_CAP else 0)
  }

  ghost predicate Follows(t: Tally, t': Tally, d: Defect, workbook: bool, wear: nat) {
    && t'.total == t.total + Increase(d, workbook, wear, t.edgeWearAdded, t.doodleWorkbookAdded)
    && t'.edgeWearAdded == (t.edgeWearAdded || ActiveWear(d))
    && t'.doodleWorkbookAdded == (t.doodleWorkbookAdded || (workbook && ActiveDoodle(d)))
    && t'.wearGroup == (if ActiveWear(d) && !t.edgeWearAdded then wear else t.wearGroup)
    && t'.excluded == t.excluded + (if d.suspect then [d.dtype] else [])
    && ItemSum(t'.items) - ItemSum(t.items) == t'.total - t.total
  }

  /** One turn of the scoring loop; `fatal` ends it. */
  method ScoreOne(t: Tally, d: Defect, workbook: bool, corners: nat, maxRatio: int)
    returns (t': Tally, charge: Charge, fatal: bool)
    ensures fatal == Fatal(d)
    ensures !fatal ==> charge == LoopCharge(d, workbook)
    ensures !fatal ==> Follows(t, t', d, workbook, WearValue(corners, maxRatio))
  {
    t', charge, fatal := t, d.charge, false;
    var ratio := EffectiveRatio(d, 5);
    if d.suspect {
      t' := t.(excluded := t.excluded + [d.dtype]);
      charge := d.charge.(scope := Some(Excluded), applied := Some(0));
    } else if d.kind.Wet? {
      fatal := true;
      t' := t.(items := t.items + [(d.dtype, 100)]);
    } else if d.kind.Wear? {
      charge := d.charge.(scope := Some(Group), group := Some(EdgeWearGroup));
      if !t.edgeWearAdded {
        var deduction := WearValue(corners, maxRatio);
        ItemSumOfOneMore(t.items, (d.dtype, deduction));
        t' := t.Add(d.dtype, deduction).(edgeWearAdded := true, wearGroup := deduction);
      }
    } else if d.kind.Doodle? && workbook {
      charge := Charge(Some(Group), Some(WorkbookDoodleGroup), Some(WORKBOOK_DOODLE_CAP));
      if !t.doodleWorkbookAdded {
        ItemSumOfOneMore(t.items, (d.dtype, WORKBOOK_DOODLE_CAP));
        t' := t.Add(d.dtype, WORKBOOK_DOODLE_CAP).(doodleWorkbookAdded := true);
      }
    } else if d.kind.Binding? && ratio >= BINDING_FATAL_RATIO {
      fatal := true;
    } else {
      var deduction := SingleDeduction(d, ratio, workbook);
      ItemSumOfOneMore(t.items, (d.dtype, deduction));
      t' := t.Add(d.dtype, deduction);
      charge := d.charge.(scope := Some(SingleItem), applied := Some(deduction));
    }
  }

  /** The tally after the first i defects. */
  ghost predicate TallyOf(t: Tally, ds: seq<Defect>, i: nat, workbook: bool)
    requires i <= |ds|
  {
    && t.total == ItemSum(t.items)
    && t.total == Singles(ds[..i], workbook)
                  + (if t.edgeWearAdded then WearDeduction(ds) else 0)
                  + (if t.doodleWorkbookAdded then WORKBOOK_DOODLE_CAP else 0)
    && t.edgeWearAdded == AnyWear(ds[..i])
    && (t.edgeWearAdded ==> t.wearGroup == WearDeduction(ds))
    && t.doodleWorkbookAdded == (workbook && AnyDoodle(ds[..i]))
    && (t.excluded == [] <==> NoneSuspect(ds[..i]))
  }

  lemma TallyOneMore(t: Tally, t': Tally, ds: seq<Defect>, i: nat, workbook: bool)
    requires i < |ds| && TallyOf(t, ds, i, workbook)
    requires Follows(t, t', ds[i], workbook, WearDeduction(ds))
    ensures TallyOf(t', ds, i + 1, workbook)
  {
    OneMore(ds, i, workbook);
  }

  predicate NoneSuspect(ds: seq<Defect>) {
    forall d :: d in ds ==> !d.suspect
  }

  /** The loop's state when it has handled the first n defects. */
  ghost predicate Progress(t: Tally, charged: seq<Defect>, ds: seq<Defect>, n: nat, workbook: bool) {
    n <= Handled(ds) && TallyOf(t, ds, n, workbook) && charged == Looped(ds, workbook, n)
  }

  lemma ProgressBegins(ds: seq<Defect>, workbook: bool)
    ensures Progress(Tally(0, [], [], false, false, 0), ds, ds, 0, workbook)
  {
    assert ds == Looped(ds, workbook, 0);
  }

  lemma NextDefect(t: Tally, charged: seq<Defect>, ds: seq<Defect>, n: nat, workbook: bool)
    requires Progress(t, charged, ds, n, workbook) && n < |ds|
    ensures |charged| == |ds| && charged[n] == ds[n]
  {
  }

  lemma LoopedOneMore(ds: seq<Defect>, workbook: bool, n: nat, charge: Charge)
    requires n < |ds| && charge == LoopCharge(ds[n], workbook)
    ensures Looped(ds, workbook, n)[n := ds[n].(charge := charge)] == Looped(ds, workbook, n + 1)
  {
  }

  lemma NotYetTheEnd(ds: seq<Defect>, n: nat)
    requires n <= Handled(ds) && n < |ds| && !Fatal(ds[n])
    ensures n + 1 <= Handled(ds)
  {
  }

  lemma ProgressOneMore(t: Tally, t': Tally, charged: seq<Defect>, ds: seq<Defect>, n: nat, workbook: bool, charge: Charge)
    requires Progress(t, charged, ds, n, workbook) && n < |ds| && |charged| == |ds|
    requires !Fatal(ds[n]) && charge == LoopCharge(ds[n], workbook)
    requires Follows(t, t', ds[n], workbook, WearDeduction(ds))
    ensures Progress(t', charged[n := ds[n].(charge := charge)], ds, n + 1, workbook)
  {
    NotYetTheEnd(ds, n);
    TallyOneMore(t, t', ds, n, workbook);
    LoopedOneMore(ds, workbook, n, charge);
  }

  /** The loop ends where the list does or at its first fatal defect. */
  lemma LoopEnd(t: Tally, charged: seq<Defect>, ds: seq<Defect>, i: nat, workbook: bool)
    requires Progress(t, charged, ds, i, workbook) && (i == |ds| || Fatal(ds[i]))
    ensures Handled(ds) == i
    ensures AnyFatal(ds) == (i < |ds|)
    ensures t.edgeWearAdded == AnyWear(ds[..i])
    ensures t.edgeWearAdded ==> t.wearGroup == WearDeduction(ds)
    ensures i == |ds| ==> t.total == Total(ds, workbook) == ItemSum(t.items)
    ensures ScoreOf(i < |ds|, t.total) == Score(ds, workbook)
    ensures i == |ds| ==> (t.excluded == [] <==> NoneSuspect(ds))
  {
    if i < |ds| {
      assert ds[i] in ds;
    } else {
      assert ds[..i] == ds;
    }
  }

  /** The scoring loop of policy_agent: it handles `n` defects and stops early at a fatal one. */
  method ScoreEach(defects: seq<Defect>, workbook: bool, corners: nat, maxRatio: int)
    returns (t: Tally, charged: seq<Defect>, n: nat)
    requires WearValue(corners, maxRatio) == WearDeduction(defects)
    ensures Progress(t, charged, defects, n, workbook) && (n == |defects| || Fatal(defects[n]))
  {
    charged := defects;
    t, n := Tally(0, [], [], false, false, 0), 0;
    ProgressBegins(defects, workbook);
    while n < |defects|
      invariant 0 <= n <= |defects|
      invariant Progress(t, charged, defects, n, workbook)
    {
      NextDefect(t, charged, defects, n, workbook);
      var d := charged[n];
      var t', charge, fatal := ScoreOne(t, d, workbook, corners, maxRatio);
      if fatal {
        break;
      }
      ProgressOneMore(t, t', charged, defects, n, workbook, charge);
      charged := charged[n := d.(charge := charge)];
      t := t';
      n := n + 1;
    }
  }

  /** Stage A of policy_agent: the profile, the loop, and the second pass over the wear group. */
  method ScoreDefects(defects: seq<Defect>, workbook: bool) returns (a: Assessment, charged: seq<Defect>)
    ensures a.score == Score(defects, workbook)
    ensures a.fatal == AnyFatal(defects)
    ensures !a.fatal ==> a.total == Total(defects, workbook) == ItemSum(a.items)
    ensures !a.fatal ==> (a.excluded == [] <==> NoneSuspect(defects))
    ensures a.unverified <==> !a.fatal && defects != [] && a.total == 0 && a.excluded != []
    ensures charged == Charged(defects, workbook)
  {
    var corners, maxRatio := EdgeWearProfile(defects);
    var t, n;
    t, charged, n := ScoreEach(defects, workbook, |corners|, maxRatio);
    var fatal := n < |defects|;
    LoopEnd(t, charged, defects, n, workbook);
    if t.edgeWearAdded {
      charged := SpreadWearDeduction(charged, t.wearGroup);
    }
    var score := ScoreOf(fatal, t.total);
    var unverified := !fatal && defects != [] && t.total == 0 && t.excluded != [];
    a := Assessment(score, t.total, t.items, t.excluded, fatal, unverified);
  }

  /** The loop after the scoring loop: every member of the wear group carries the group's deduction. */
  method SpreadWearDeduction(defects: seq<Defect>, wear: nat) returns (out: seq<Defect>)
    ensures out == Spread(defects, wear)
  {
    out := defects;
    for i := 0 to |defects|
      invariant |out| == |defects|
      invariant forall j :: 0 <= j < i ==> out[j] == defects[j].(charge := GroupCharge(defects[j].charge, wear))
      invariant forall j :: i <= j < |defects| ==> out[j] == defects[j]
    {
      var c := out[i].charge;
      if c.group != Some(EdgeWearGroup) || c.scope == Some(Excluded) {
        continue;
      }
      out := out[i := out[i].(charge := c.(applied := Some(wear)))];
    }
  }
}
