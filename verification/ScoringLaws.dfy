/** What the UBCI score promises, for every list of defects. */
module ScoringLaws {
  import opened Options
  import opened Defects
  import opened UbciMatrix
  import opened EdgeWear
  import opened Scoring
  import Bags

  // --- More evidence never raises the score ------------------------------------------------

  predicate IsActive(d: Defect) {
    !d.suspect
  }

  /** Every defect that the evidence check has not dismissed in a is reported at least as often in b. */
  ghost predicate NoMoreEvidence(a: seq<Defect>, b: seq<Defect>) {
    Bags.Within(a, b, IsActive)
  }

  lemma MoreEvidenceWithin(a: seq<Defect>, b: seq<Defect>)
    requires NoMoreEvidence(a, b)
    ensures ActiveWithin(a, b)
  {
    forall d | d in a && !d.suspect
      ensures d in b
    {
      Bags.Counted(a, IsActive, d);
      Bags.Counted(b, IsActive, d);
    }
  }

  lemma WearValueMonotone(corners: nat, ratio: int, corners': nat, ratio': int)
    requires corners <= corners' && ratio <= ratio'
    ensures WearValue(corners, ratio) <= WearValue(corners', ratio')
  {
  }

  lemma WearDeductionMonotone(a: seq<Defect>, b: seq<Defect>)
    requires ActiveWithin(a, b)
    ensures WearDeduction(a) <= WearDeduction(b)
  {
    MoreWearMoreCorners(a, b);
    MoreWearMoreRatio(a, b);
    WearValueMonotone(|WornCorners(a)|, MaxRatio(a), |WornCorners(b)|, MaxRatio(b));
  }

  lemma GroupsMonotone(a: seq<Defect>, b: seq<Defect>)
    requires ActiveWithin(a, b)
    ensures AnyWear(a) ==> AnyWear(b)
    ensures AnyDoodle(a) ==> AnyDoodle(b)
    ensures AnyFatal(a) ==> AnyFatal(b)
  {
  }

  lemma TotalMonotone(a: seq<Defect>, b: seq<Defect>, workbook: bool)
    requires NoMoreEvidence(a, b) && ActiveWithin(a, b)
    ensures Total(a, workbook) <= Total(b, workbook)
  {
    Bags.SumMonotone(a, b, Cost(workbook), IsActive);
    WearDeductionMonotone(a, b);
    GroupsMonotone(a, b);
  }

  /** The score is antitone in the undismissed evidence, the worn corners and their cap included. */
  lemma MoreEvidenceLowerScore(a: seq<Defect>, b: seq<Defect>, workbook: bool)
    requires NoMoreEvidence(a, b)
    ensures Score(b, workbook) <= Score(a, workbook)
  {
    MoreEvidenceWithin(a, b);
    TotalMonotone(a, b, workbook);
    GroupsMonotone(a, b);
  }

  /** One more defect, reported anywhere in the list, never raises the score. */
  lemma AddingADefect(before: seq<Defect>, d: Defect, after: seq<Defect>, workbook: bool)
    ensures Score(before + [d] + after, workbook) <= Score(before + after, workbook)
  {
    Bags.WithinAround(before, d, after, IsActive);
    MoreEvidenceLowerScore(before + after, before + [d] + after, workbook);
  }

  /** Taking a dismissal back never raises the score. */
  lemma RestoringADefect(ds: seq<Defect>, i: nat, workbook: bool)
    requires i < |ds| && ds[i].suspect
    ensures Score(ds[i := ds[i].(suspect := false)], workbook) <= Score(ds, workbook)
  {
    var d := ds[i].(suspect := false);
    assert ds == ds[..i] + [ds[i]] + ds[i + 1..];
    assert ds[i := d] == ds[..i] + [d] + ds[i + 1..];
    assert NoMoreEvidence(ds, ds[i := d]) by {
      forall y
        ensures Bags.Count(ds, IsActive, y) <= Bags.Count(ds[i := d], IsActive, y)
      {
        Bags.CountAround(ds[..i], ds[i], ds[i + 1..], IsActive, y);
        Bags.CountAround(ds[..i], d, ds[i + 1..], IsActive, y);
      }
    }
    MoreEvidenceLowerScore(ds, ds[i := d], workbook);
  }

  /** The order in which the vision model lists the defects does not move the score. */
  lemma ScoreIgnoresOrder(a: seq<Defect>, b: seq<Defect>, workbook: bool)
    requires multiset(a) == multiset(b)
    ensures Score(a, workbook) == Score(b, workbook)
  {
    Bags.WithinPermutation(a, b, IsActive);
    Bags.WithinPermutation(b, a, IsActive);
    MoreEvidenceLowerScore(a, b, workbook);
    MoreEvidenceLowerScore(b, a, workbook);
  }

  // --- A perfect score ------------------------------------------------------------------------

  lemma SingleIsPositive(d: Defect, workbook: bool)
    requires !d.suspect && !Fatal(d) && !d.kind.Wear? && !(d.kind.Doodle? && workbook)
    ensures Single(d, workbook) > 0
  {
  }

  /** No deduction is left exactly when the evidence check dismissed everything. */
  lemma ZeroTotalMeansAllDismissed(ds: seq<Defect>, workbook: bool)
    requires !AnyFatal(ds)
    ensures Total(ds, workbook) == 0 <==> AllSuspect(ds)
  {
    if AllSuspect(ds) {
      Bags.SumOfZeros(ds, Cost(workbook));
    } else {
      var d :| d in ds && !d.suspect;
      Bags.SumAtLeast(ds, d, Cost(workbook));
      if ActiveWear(d) {
        assert AnyWear(ds) && WearDeduction(ds) >= 3;
      } else if ActiveDoodle(d) && workbook {
        assert AnyDoodle(ds);
      } else {
        SingleIsPositive(d, workbook);
      }
    }
  }

  /** 100 points mean that nothing undismissed was reported. */
  lemma PerfectScore(ds: seq<Defect>, workbook: bool)
    ensures Score(ds, workbook) == 100 <==> AllSuspect(ds)
    ensures 0 <= Score(ds, workbook) <= 100
  {
    if !AnyFatal(ds) {
      ZeroTotalMeansAllDismissed(ds, workbook);
    }
  }

  /** score_unverified, as the loop computes it, marks exactly the reported books whose 100 points rest on dismissals. */
  lemma UnverifiedIsDismissedPerfect(ds: seq<Defect>, workbook: bool, a: Assessment)
    requires a.fatal == AnyFatal(ds)
    requires !a.fatal ==> a.total == Total(ds, workbook)
    requires !a.fatal ==> (a.excluded == [] <==> NoneSuspect(ds))
    requires a.unverified <==> !a.fatal && ds != [] && a.total == 0 && a.excluded != []
    ensures a.unverified <==> ds != [] && Score(ds, workbook) == 100
  {
    PerfectScore(ds, workbook);
    if AllSuspect(ds) && ds != [] {
      assert ds[0] in ds;
    }
    if !a.fatal {
      ZeroTotalMeansAllDismissed(ds, workbook);
    }
  }

  // --- Caps --------------------------------------------------------------------------------------

  /** Only members of a capped group are undismissed. */
  predicate OnlyGroups(ds: seq<Defect>, workbook: bool) {
    forall d :: d in ds ==> d.suspect || d.kind.Wear? || (workbook && d.kind.Doodle?)
  }

  lemma GroupsHaveNoSingles(ds: seq<Defect>, workbook: bool)
    requires OnlyGroups(ds, workbook)
    ensures Singles(ds, workbook) == 0
    ensures !AnyFatal(ds) && (AnyDoodle(ds) ==> workbook)
  {
    Bags.SumOfZeros(ds, Cost(workbook));
  }

  /** However often wear and workbook scribbles are detected: worn books keep at least 85 points, scribbled
      workbooks exactly 85, and both together at least 70, so such a book is never refused. */
  lemma CapsKeepTheBook(ds: seq<Defect>, workbook: bool)
    requires OnlyGroups(ds, workbook)
    ensures DecisionApproves(Score(ds, workbook)) && Score(ds, workbook) >= 70
    ensures !AnyDoodle(ds) ==> Score(ds, workbook) >= 85
    ensures !AnyWear(ds) && AnyDoodle(ds) ==> Score(ds, workbook) == 85
    ensures AnyWear(ds) ==> Score(ds, workbook) <= 97
  {
    GroupsHaveNoSingles(ds, workbook);
  }

  // --- The charges account for the total -------------------------------------------------------

  predicate InGroup(d: Defect, group: GroupName) {
    d.charge.scope == Some(Group) && d.charge.group == Some(group)
  }

  function SingleCharge(d: Defect): nat {
    if d.charge.scope == Some(SingleItem) && d.charge.applied.GetOr(0) > 0 then d.charge.applied.value else 0
  }

  function SingleCharges(ds: seq<Defect>): nat {
    Bags.Sum(ds, SingleCharge)
  }

  /** No charge from an earlier scoring says that another kind of defect belongs to the wear group. */
  predicate NoStrayGroup(ds: seq<Defect>) {
    forall d :: d in ds && d.charge.group == Some(EdgeWearGroup) ==> d.kind.Wear?
  }

  lemma {:induction false} NothingFatalNothingSkipped(ds: seq<Defect>)
    requires !AnyFatal(ds)
    ensures Handled(ds) == |ds|
  {
    if ds == [] {
    } else {
      assert ds[0] in ds && forall d :: d in ds[1..] ==> d in ds;
      NothingFatalNothingSkipped(ds[1..]);
    }
  }

  lemma ChargedWithoutFatal(ds: seq<Defect>, workbook: bool)
    requires !AnyFatal(ds)
    ensures var looped := Looped(ds, workbook, |ds|);
            Charged(ds, workbook) == if AnyWear(ds) then Spread(looped, WearDeduction(ds)) else looped
  {
    NothingFatalNothingSkipped(ds);
    assert ds[..|ds|] == ds;
  }

  lemma SpreadAt(ds: seq<Defect>, workbook: bool, wear: nat, i: nat)
    requires i < |ds| && NoStrayGroup(ds)
    ensures var d := Spread(Looped(ds, workbook, |ds|), wear)[i];
            && d == ds[i].(charge := d.charge)
            && d.charge == if ActiveWear(ds[i]) then Charge(Some(Group), Some(EdgeWearGroup), Some(wear))
                           else LoopCharge(ds[i], workbook)
  {
    assert ds[i] in ds;
  }

  lemma ChargedAt(ds: seq<Defect>, workbook: bool, i: nat)
    requires i < |ds| && !AnyFatal(ds) && NoStrayGroup(ds)
    ensures var d := Charged(ds, workbook)[i];
            && d == ds[i].(charge := d.charge)
            && d.charge == if ActiveWear(ds[i]) then Charge(Some(Group), Some(EdgeWearGroup), Some(WearDeduction(ds)))
                           else LoopCharge(ds[i], workbook)
  {
    ChargedWithoutFatal(ds, workbook);
    SpreadAt(ds, workbook, WearDeduction(ds), i);
    assert ds[i] in ds;
  }

  lemma GroupsAt(ds: seq<Defect>, workbook: bool, i: nat)
    requires i < |ds| && !AnyFatal(ds) && NoStrayGroup(ds)
    ensures var d := Charged(ds, workbook)[i];
            && (InGroup(d, EdgeWearGroup) <==> ActiveWear(ds[i]))
            && (InGroup(d, WorkbookDoodleGroup) <==> ActiveDoodle(ds[i]) && workbook)
            && (InGroup(d, EdgeWearGroup) ==> d.charge.applied == Some(WearDeduction(ds)))
            && (InGroup(d, WorkbookDoodleGroup) ==> d.charge.applied == Some(WORKBOOK_DOODLE_CAP))
            && (d.suspect ==> d.charge.applied == Some(0) && d.charge.scope == Some(Excluded))
            && SingleCharge(d) == Cost(workbook)(ds[i])
  {
    ChargedAt(ds, workbook, i);
    assert ds[i] in ds;
  }

  predicate AnyInGroup(ds: seq<Defect>, group: GroupName) {
    exists d :: d in ds && InGroup(d, group)
  }

  /** The charges that a screen shows add up to the deduction: single ones one by one, each group once. */
  lemma ChargesAccountForTotal(ds: seq<Defect>, workbook: bool)
    requires !AnyFatal(ds) && NoStrayGroup(ds)
    ensures var out := Charged(ds, workbook);
            Total(ds, workbook) == SingleCharges(out)
              + (if AnyInGroup(out, EdgeWearGroup) then WearDeduction(ds) else 0)
              + (if AnyInGroup(out, WorkbookDoodleGroup) then WORKBOOK_DOODLE_CAP else 0)
  {
    var out := Charged(ds, workbook);
    forall i | 0 <= i < |ds|
      ensures SingleCharge(out[i]) == Cost(workbook)(ds[i])
    {
      GroupsAt(ds, workbook, i);
    }
    Bags.SumOfSame(out, ds, SingleCharge, Cost(workbook));
    GroupsShown(ds, workbook);
  }

  lemma GroupsShown(ds: seq<Defect>, workbook: bool)
    requires !AnyFatal(ds) && NoStrayGroup(ds)
    ensures AnyInGroup(Charged(ds, workbook), EdgeWearGroup) == AnyWear(ds)
    ensures AnyInGroup(Charged(ds, workbook), WorkbookDoodleGroup) == (workbook && AnyDoodle(ds))
  {
    var out := Charged(ds, workbook);
    forall i | 0 <= i < |ds|
      ensures InGroup(out[i], EdgeWearGroup) <==> ActiveWear(ds[i])
      ensures InGroup(out[i], WorkbookDoodleGroup) <==> ActiveDoodle(ds[i]) && workbook
    {
      GroupsAt(ds, workbook, i);
    }
    SomeMember(ds, out, ActiveWear, EdgeWearGroup);
    SomeMember(ds, out, d => ActiveDoodle(d) && workbook, WorkbookDoodleGroup);
  }

  lemma SomeMember(ds: seq<Defect>, out: seq<Defect>, member: Defect -> bool, group: GroupName)
    requires |out| == |ds| && forall i :: 0 <= i < |ds| ==> (InGroup(out[i], group) <==> member(ds[i]))
    ensures AnyInGroup(out, group) <==> exists d :: d in ds && member(d)
  {
    if d :| d in ds && member(d) {
      var i :| 0 <= i < |ds| && ds[i] == d;
      assert out[i] in out && InGroup(out[i], group);
    }
    if d :| d in out && InGroup(d, group) {
      var i :| 0 <= i < |ds| && out[i] == d;
      assert ds[i] in ds && member(ds[i]);
    }
  }

  /** Charging writes nothing but the charge. */
  lemma ChargingKeepsReport(ds: seq<Defect>, workbook: bool, i: nat)
    requires i < |ds|
    ensures Charged(ds, workbook)[i] == ds[i].(charge := Charged(ds, workbook)[i].charge)
  {
    var looped := Looped(ds, workbook, Handled(ds));
    assert looped[i] == ds[i].(charge := looped[i].charge);
  }

  /** Every member of a group shows the value that the whole group cost, and a dismissed defect shows 0. */
  lemma GroupValuesShown(ds: seq<Defect>, workbook: bool)
    requires !AnyFatal(ds) && NoStrayGroup(ds)
    ensures forall d :: d in Charged(ds, workbook) ==>
              && (InGroup(d, EdgeWearGroup) ==> d.charge.applied == Some(WearDeduction(ds)))
              && (InGroup(d, WorkbookDoodleGroup) ==> d.charge.applied == Some(WORKBOOK_DOODLE_CAP))
              && (d.suspect ==> d.charge.applied == Some(0) && d.charge.scope == Some(Excluded))
  {
    forall d | d in Charged(ds, workbook)
      ensures InGroup(d, EdgeWearGroup) ==> d.charge.applied == Some(WearDeduction(ds))
      ensures InGroup(d, WorkbookDoodleGroup) ==> d.charge.applied == Some(WORKBOOK_DOODLE_CAP)
      ensures d.suspect ==> d.charge.applied == Some(0) && d.charge.scope == Some(Excluded)
    {
      var i :| 0 <= i < |ds| && Charged(ds, workbook)[i] == d;
      GroupsAt(ds, workbook, i);
    }
  }
}
