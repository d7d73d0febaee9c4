/** Which boxes are marked as invented, in the fields of the defects. */
module GroundingLaws {
  import opened Options
  import opened Defects
  import opened Grounding
  import Bags

  /** A box that neither a detector measured nor a candidate lent. */
  predicate Guessed(d: Defect) {
    d.bbox.Some? && (d.source == NoSource || d.source == FromVlm) && !d.adopted
  }

  function Left(d: Defect): int
    requires d.bbox.Some?
  {
    d.bbox.value.xmin.GetOr(0)
  }

  function Top(d: Defect): int
    requires d.bbox.Some?
  {
    d.bbox.value.ymin.GetOr(0)
  }

  function Across(d: Defect): int
    requires d.bbox.Some?
  {
    d.bbox.value.xmax.GetOr(0) - d.bbox.value.xmin.GetOr(0)
  }

  function Down(d: Defect): int
    requires d.bbox.Some?
  {
    d.bbox.value.ymax.GetOr(0) - d.bbox.value.ymin.GetOr(0)
  }

  predicate SameSize(d: Defect, e: Defect)
    requires d.bbox.Some? && e.bbox.Some?
  {
    Across(d) == Across(e) && Down(d) == Down(e)
  }

  predicate SameBox(d: Defect, e: Defect)
    requires d.bbox.Some? && e.bbox.Some?
  {
    SameSize(d, e) && Left(d) == Left(e) && Top(d) == Top(e)
  }

  /** The list after the check. */
  ghost function Checked(ds: seq<Defect>): (out: seq<Defect>)
    ensures |out| == |ds|
  {
    Marked(ds, UngroundedPositions(ds))
  }

  /** Measured, adopted and missing boxes come back as they are. */
  lemma MeasuredBoxesStay(ds: seq<Defect>, i: nat)
    requires i < |ds| && (ds[i].source == FromYolo || ds[i].adopted || ds[i].bbox.None?)
    ensures Checked(ds)[i] == ds[i]
  {
  }

  /** Nothing but the mark changes. */
  lemma OnlyTheMarkChanges(ds: seq<Defect>, i: nat)
    requires i < |ds|
    ensures Checked(ds)[i] == ds[i] || Checked(ds)[i] == ds[i].(ungrounded := true)
  {
  }

  /** One box guessed in two shots. */
  lemma RepeatedBoxesAreMarked(ds: seq<Defect>, i: nat, j: nat)
    requires i < |ds| && j < |ds| && Guessed(ds[i]) && Guessed(ds[j]) && SameBox(ds[i], ds[j])
    requires ds[i].imageIndex.GetOr(0) != ds[j].imageIndex.GetOr(0)
    ensures Checked(ds)[i].ungrounded && Checked(ds)[j].ungrounded
  {
    BoxIsRepeated(ds, ds[i], ds[j]);
    BoxIsRepeated(ds, ds[j], ds[i]);
    UngroundedIsMarked(ds, i);
    UngroundedIsMarked(ds, j);
  }

  lemma BoxIsRepeated(ds: seq<Defect>, d: Defect, e: Defect)
    requires e in ds && Guessed(d) && Guessed(e) && SameBox(d, e) && d.imageIndex.GetOr(0) != e.imageIndex.GetOr(0)
    ensures Ungrounded(ds, d)
  {
    assert VlmOwned(e) && Key(e) == Key(d) && Shot(e) != Shot(d);
  }

  lemma UngroundedIsMarked(ds: seq<Defect>, i: nat)
    requires i < |ds| && Ungrounded(ds, ds[i])
    ensures Checked(ds)[i].ungrounded
  {
  }

  /** A guess that covers 88 percent of the frame, even if it stands alone; soaked and discoloured pages may. */
  lemma FullFrameIsMarked(ds: seq<Defect>, i: nat)
    requires i < |ds| && Guessed(ds[i]) && Across(ds[i]) * Down(ds[i]) >= 880_000
    requires ds[i].dtype != "DMG_EXT_WET" && ds[i].dtype != "DMG_INT_DISCOLOR"
    ensures Checked(ds)[i].ungrounded
  {
  }

  function Stop(start: Point, step: Point, k: nat): Point {
    (start.0 + k * step.0, start.1 + k * step.1)
  }

  /** Some guess of this size has its corner there. */
  predicate OnPlace(ds: seq<Defect>, d: Defect, p: Point)
    requires d.bbox.Some?
  {
    exists e :: e in ds && Guessed(e) && SameSize(e, d) && (Left(e), Top(e)) == p
  }

  predicate IsStop(start: Point, step: Point, n: nat, p: Point) {
    exists k: nat :: k < n && Stop(start, step, k) == p
  }

  /** A number of places at even distances that all guesses of this size take, and no others. */
  ghost predicate LinedUp(ds: seq<Defect>, d: Defect, n: nat, start: Point, step: Point)
    requires d.bbox.Some?
  {
    && step != (0, 0)
    && (forall k: nat :: k < n ==> OnPlace(ds, d, Stop(start, step, k)))
    && (forall e :: e in ds && Guessed(e) && SameSize(e, d) ==> IsStop(start, step, n, (Left(e), Top(e))))
  }

  lemma CornersAre(ds: seq<Defect>, d: Defect, p: Point)
    requires d.bbox.Some?
    ensures p in Corners(ds, SizeOf(d)) <==> OnPlace(ds, d, p)
  {
  }

  lemma LineIsStops(start: Point, step: Point, n: nat, p: Point)
    ensures p in Line(start, step, n) <==> IsStop(start, step, n, p)
  {
    if p in Line(start, step, n) {
      var k: nat :| k < n && p == (start.0 + k * step.0, start.1 + k * step.1);
      assert Stop(start, step, k) == p;
    }
    if IsStop(start, step, n, p) {
      var k: nat :| k < n && Stop(start, step, k) == p;
      PointOnLine(start, step, n, k);
    }
  }

  lemma LineIsCorners(ds: seq<Defect>, d: Defect, n: nat, start: Point, step: Point)
    requires d.bbox.Some? && LinedUp(ds, d, n, start, step)
    ensures Corners(ds, SizeOf(d)) == Line(start, step, n)
  {
    forall p: Point
      ensures p in Corners(ds, SizeOf(d)) <==> p in Line(start, step, n)
    {
      CornersAre(ds, d, p);
      LineIsStops(start, step, n, p);
    }
  }

  /** Distinct places along a step. */
  lemma {:induction false} LineHasPlaces(start: Point, step: Point, n: nat)
    requires step != (0, 0)
    ensures |Line(start, step, n)| == n
  {
    if n == 0 {
      assert Line(start, step, 0) == {};
    } else {
      LineHasPlaces(start, step, n - 1);
      LastPlaceIsNew(start, step, n - 1);
      LongerLine(start, step, n - 1);
    }
  }

  lemma LongerLine(start: Point, step: Point, n: nat)
    ensures Line(start, step, n + 1) == Line(start, step, n) + {(start.0 + n * step.0, start.1 + n * step.1)}
  {
    forall k: nat | k < n + 1
      ensures (start.0 + k * step.0, start.1 + k * step.1) in Line(start, step, n) + {(start.0 + n * step.0, start.1 + n * step.1)}
    {
      if k < n {
        PointOnLine(start, step, n, k);
      }
    }
    forall k: nat | k < n
      ensures (start.0 + k * step.0, start.1 + k * step.1) in Line(start, step, n + 1)
    {
      PointOnLine(start, step, n + 1, k);
    }
    PointOnLine(start, step, n + 1, n);
  }

  lemma LastPlaceIsNew(start: Point, step: Point, n: nat)
    requires step != (0, 0)
    ensures (start.0 + n * step.0, start.1 + n * step.1) !in Line(start, step, n)
  {
    forall k: nat | k < n
      ensures (start.0 + k * step.0, start.1 + k * step.1) != (start.0 + n * step.0, start.1 + n * step.1)
    {
      Apart(step.0, k, n);
      Apart(step.1, k, n);
    }
  }

  lemma Apart(d: int, k: nat, n: nat)
    requires k < n
    ensures k * d == n * d <==> d == 0
  {
    assert (n - k) * d == n * d - k * d;
  }

  lemma LineIsEven(start: Point, step: Point, n: nat)
    requires n >= 3 && |Line(start, step, n)| == n
    ensures EvenlySpaced(Line(start, step, n))
  {
  }

  /** Three or more places of guesses of one size at even distances: all of them are marked. */
  lemma LinedUpBoxesAreMarked(ds: seq<Defect>, i: nat, n: nat, start: Point, step: Point)
    requires i < |ds| && Guessed(ds[i]) && n >= 3 && LinedUp(ds, ds[i], n, start, step)
    ensures Checked(ds)[i].ungrounded
  {
    LineIsCorners(ds, ds[i], n, start, step);
    LineHasPlaces(start, step, n);
    LineIsEven(start, step, n);
    assert Ungrounded(ds, ds[i]);
  }

  /** A new mark has one of these three grounds. */
  lemma MarksHaveAGround(ds: seq<Defect>, i: nat)
    requires i < |ds| && Checked(ds)[i].ungrounded && !ds[i].ungrounded
    ensures Guessed(ds[i])
    ensures || (Across(ds[i]) * Down(ds[i]) >= 880_000 && ds[i].dtype != "DMG_EXT_WET" && ds[i].dtype != "DMG_INT_DISCOLOR")
            || (exists j :: 0 <= j < |ds| && Guessed(ds[j]) && SameBox(ds[i], ds[j])
                            && ds[i].imageIndex.GetOr(0) != ds[j].imageIndex.GetOr(0))
            || (exists n: nat, start, step :: n >= 3 && LinedUp(ds, ds[i], n, start, step))
  {
    var d := ds[i];
    assert Ungrounded(ds, d);
    if NearFullFrame(d) {
    } else if Repeated(ds, d) {
      var e :| e in ds && VlmOwned(e) && Key(e) == Key(d) && Shot(e) != Shot(d);
      var j :| 0 <= j < |ds| && ds[j] == e;
      assert Guessed(ds[j]) && SameBox(d, ds[j]);
    } else {
      var points := Corners(ds, SizeOf(d));
      var start, step :| points == Line(start, step, |points|);
      LineNeedsAStep(start, step, |points|);
      CornersLineUp(ds, d, |points|, start, step);
    }
  }

  lemma CornersLineUp(ds: seq<Defect>, d: Defect, n: nat, start: Point, step: Point)
    requires d.bbox.Some? && step != (0, 0) && Corners(ds, SizeOf(d)) == Line(start, step, n)
    ensures LinedUp(ds, d, n, start, step)
  {
    forall k: nat | k < n
      ensures OnPlace(ds, d, Stop(start, step, k))
    {
      LineIsStops(start, step, n, Stop(start, step, k));
      CornersAre(ds, d, Stop(start, step, k));
    }
    forall e | e in ds && Guessed(e) && SameSize(e, d)
      ensures IsStop(start, step, n, (Left(e), Top(e)))
    {
      CornersAre(ds, d, (Left(e), Top(e)));
      LineIsStops(start, step, n, (Left(e), Top(e)));
    }
  }
}
