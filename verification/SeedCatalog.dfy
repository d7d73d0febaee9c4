/**
 The seed generator (build_defects_for_grade in app/scripts/seed_balanced_catalog.py): a
 grade is chosen first, and then defects that lead to it. The shuffle is any order of the
 pool, and every coin may fall either way.
 */
module SeedCatalog {
  import opened Options
  import opened UbciMatrix
  import Bags

  datatype SeedDefect = SeedDefect(code: string, deduction: nat)

  const DEFECT_POOL: seq<SeedDefect> := [
    SeedDefect("DMG_EDGE_WEAR", 5), SeedDefect("DMG_EXT_SCRATCH", 2), SeedDefect("DMG_EXT_STICKER", 3),
    SeedDefect("DMG_EXT_CRUSH", 5), SeedDefect("DMG_INT_DISCOLOR", 2), SeedDefect("DMG_INT_STAIN", 5),
    SeedDefect("DMG_EXT_TEAR", 10), SeedDefect("DMG_INT_DOODLE", 10), SeedDefect("DMG_SPINE_CRACK", 10),
    SeedDefect("DMG_INT_STAIN_M", 10), SeedDefect("DMG_INT_DISCOLOR_H", 10)]

  /** GRADE_BUDGET: the deductions that lead to a grade. There is none for a refused book. */
  function Budget(target: Grade): Option<(nat, nat)> {
    match target
    case Mint => Some((0, 5))
    case Good => Some((6, 15))
    case Normal => Some((16, 35))
    case Reject => None
  }

  function Deduction(d: SeedDefect): nat {
    d.deduction
  }

  /** The deduction, if it fits on top of any total below the budget. */
  function Fitting(lo: nat, hi: nat): SeedDefect -> nat {
    (d: SeedDefect) => if lo + d.deduction <= hi + 1 then d.deduction else 0
  }

  /** The picked defects come from the ones looked at and stay within the budget; while they are below it, everything
      that fits has been picked. */
  ghost predicate Picking(before: seq<SeedDefect>, picked: seq<SeedDefect>, total: nat, lo: nat, hi: nat) {
    && total <= hi && total == Bags.Sum(picked, Deduction)
    && (total < lo ==> Bags.Sum(before, Fitting(lo, hi)) <= total)
    && multiset(picked) <= multiset(before)
  }

  lemma Picked(before: seq<SeedDefect>, d: SeedDefect, picked: seq<SeedDefect>, total: nat, lo: nat, hi: nat)
    requires Picking(before, picked, total, lo, hi) && total + d.deduction <= hi
    ensures Picking(before + [d], picked + [d], total + d.deduction, lo, hi)
  {
    assert (before + [d])[..|before|] == before && (picked + [d])[..|picked|] == picked;
  }

  lemma Skipped(before: seq<SeedDefect>, d: SeedDefect, picked: seq<SeedDefect>, total: nat, lo: nat, hi: nat)
    requires Picking(before, picked, total, lo, hi) && total + d.deduction > hi
    ensures Picking(before + [d], picked, total, lo, hi)
  {
    assert (before + [d])[..|before|] == before;
  }

  method BuildDefectsForGrade(target: Grade, pool: seq<SeedDefect>, stops: nat -> bool, clears: bool)
      returns (picked: seq<SeedDefect>, score: int)
    requires Budget(target).Some?
    requires var (lo, hi) := Budget(target).value; Bags.Sum(pool, Fitting(lo, hi)) >= lo
    ensures UbciGradeFromScore(Some(score)) == target
    ensures Bags.Sum(picked, Deduction) == 100 - score
    ensures multiset(picked) <= multiset(pool)
  {
    var (lo, hi) := Budget(target).value;
    var total;
    picked, total := PickDefects(pool, lo, hi, stops);
    picked, score := FinishBook(target, picked, total, clears);
  }

  /** The loop over the shuffled pool. */
  method PickDefects(pool: seq<SeedDefect>, lo: nat, hi: nat, stops: nat -> bool) returns (picked: seq<SeedDefect>, total: nat)
    requires lo <= hi && Bags.Sum(pool, Fitting(lo, hi)) >= lo
    ensures lo <= total <= hi && total == Bags.Sum(picked, Deduction) && multiset(picked) <= multiset(pool)
  {
    total, picked := 0, [];
    var i := 0;
    while i < |pool|
      invariant i <= |pool| && Picking(pool[..i], picked, total, lo, hi)
    {
      var d := pool[i];
      assert pool[..i + 1] == pool[..i] + [d];
      ghost var before := pool[..i];
      i := i + 1;
      if total >= lo && total + d.deduction > hi {
        Skipped(before, d, picked, total, lo, hi);
        continue;
      }
      if total + d.deduction <= hi {
        Picked(before, d, picked, total, lo, hi);
        picked := picked + [d];
        total := total + d.deduction;
      } else {
        Skipped(before, d, picked, total, lo, hi);
      }
      if total >= lo && picked != [] && stops(i) {
        break;
      }
    }
    InBudget(pool, i, picked, total, lo, hi);
  }

  /** A mint book may lose all its defects again; the score has a floor. */
  method FinishBook(target: Grade, picked: seq<SeedDefect>, total: nat, clears: bool) returns (out: seq<SeedDefect>, score: int)
    requires Budget(target).Some? && Budget(target).value.0 <= total <= Budget(target).value.1
    requires total == Bags.Sum(picked, Deduction)
    ensures UbciGradeFromScore(Some(score)) == target
    ensures Bags.Sum(out, Deduction) == 100 - score && (out == picked || out == [])
  {
    out := picked;
    var sum := total;
    if target == Mint && clears {
      out, sum := [], 0;
    }
    score := if 100 - sum < 65 then 65 else 100 - sum;
  }

  lemma InBudget(pool: seq<SeedDefect>, i: nat, picked: seq<SeedDefect>, total: nat, lo: nat, hi: nat)
    requires i <= |pool| && Picking(pool[..i], picked, total, lo, hi) && (i == |pool| || total >= lo)
    requires Bags.Sum(pool, Fitting(lo, hi)) >= lo
    ensures lo <= total <= hi && multiset(picked) <= multiset(pool)
  {
    assert pool == pool[..i] + pool[i..];
    assert i == |pool| ==> pool[..i] == pool;
  }

  lemma ShuffleKeepsSum(pool: seq<SeedDefect>, weight: SeedDefect -> nat)
    requires multiset(pool) == multiset(DEFECT_POOL)
    ensures Bags.Sum(pool, weight) >= Bags.Sum(DEFECT_POOL, weight)
  {
    Bags.WithinPermutation(DEFECT_POOL, pool, Every);
    Bags.SumMonotone(DEFECT_POOL, pool, weight, Every);
  }

  predicate Every(d: SeedDefect) {
    true
  }

  lemma LastTwoFit(lo: nat, hi: nat)
    requires lo + 10 <= hi + 1
    ensures Bags.Sum(DEFECT_POOL, Fitting(lo, hi)) >= 20
  {
    var p, w := DEFECT_POOL, Fitting(lo, hi);
    LastAndRest(p, w);
    LastAndRest(p[..|p| - 1], w);
  }

  lemma LastAndRest(p: seq<SeedDefect>, w: SeedDefect -> nat)
    requires p != []
    ensures Bags.Sum(p, w) == Bags.Sum(p[..|p| - 1], w) + w(p[|p| - 1])
  {
  }

  /** Every shuffle of the pool can fill every budget. */
  lemma ShuffleFillsBudget(pool: seq<SeedDefect>, target: Grade)
    requires multiset(pool) == multiset(DEFECT_POOL) && Budget(target).Some?
    ensures var (lo, hi) := Budget(target).value; Bags.Sum(pool, Fitting(lo, hi)) >= lo
  {
    var (lo, hi) := Budget(target).value;
    ShuffleKeepsSum(pool, Fitting(lo, hi));
    if lo > 0 {
      LastTwoFit(lo, hi);
    }
  }

  /** For every shuffle and every fall of the coins the book has the grade that was asked for, and its deductions
      explain its score; the floor of 65 is never needed. */
  method SeedBook(target: Grade, shuffled: seq<SeedDefect>, stops: nat -> bool, clears: bool)
      returns (picked: seq<SeedDefect>, score: int)
    requires target != Reject && multiset(shuffled) == multiset(DEFECT_POOL)
    ensures UbciGradeFromScore(Some(score)) == target
    ensures Bags.Sum(picked, Deduction) == 100 - score
    ensures multiset(picked) <= multiset(DEFECT_POOL)
  {
    ShuffleFillsBudget(shuffled, target);
    picked, score := BuildDefectsForGrade(target, shuffled, stops, clears);
  }
}
