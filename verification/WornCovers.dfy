/** Where wear lies, in coordinates: shot 0 is the front cover, shot 1 the back cover, seen from behind. */
module WornCovers {
  import opened Options
  import opened Defects
  import opened EdgeWear
  import Codes

  /** A detection of wear with a complete box in a frame of 1000 by 1000. */
  predicate Boxed(d: Defect) {
    && d.kind.Wear? && !d.suspect && d.bbox.Some? && d.bbox.value.Complete()
    && d.bbox.value.xmin.value < d.bbox.value.xmax.value && d.bbox.value.ymin.value < d.bbox.value.ymax.value
  }

  function Bounds(d: Defect): (int, int, int, int)
    requires Boxed(d)
  {
    (d.bbox.value.xmin.value, d.bbox.value.ymin.value, d.bbox.value.xmax.value, d.bbox.value.ymax.value)
  }

  /** One part of the book on the front cover, and the same part through the back cover. */
  predicate Mirrored(d: Defect, e: Defect) {
    && Boxed(d) && Boxed(e) && d.imageIndex == Some(0) && e.imageIndex == Some(1)
    && Bounds(e) == (1000 - Bounds(d).2, Bounds(d).1, 1000 - Bounds(d).0, Bounds(d).3)
  }

  /** A box in an outer third of the frame lies in the top or bottom row, one between them in the middle; on the covers a
      half decides the side, left and right swapped on the back; other shots show no side. */
  lemma BoxesAreWhereTheyLie(d: Defect)
    requires Boxed(d)
    ensures var (xmin, ymin, xmax, ymax) := Bounds(d);
            && (ymax <= 333 ==> RowOf(PlaceOf(d)) == Top)
            && (667 <= ymin ==> RowOf(PlaceOf(d)) == Bottom)
            && (333 <= ymin && ymax <= 667 ==> RowOf(PlaceOf(d)) == Mid)
            && (PlaceOf(d).AtCorner? <==> d.imageIndex == Some(0) || d.imageIndex == Some(1))
            && (d.imageIndex == Some(0) && xmax <= 500 ==> PlaceOf(d).corner.col == Left)
            && (d.imageIndex == Some(0) && 500 <= xmin ==> PlaceOf(d).corner.col == Right)
            && (d.imageIndex == Some(1) && xmax <= 500 ==> PlaceOf(d).corner.col == Right)
            && (d.imageIndex == Some(1) && 500 <= xmin ==> PlaceOf(d).corner.col == Left)
  {
  }

  /** Wear without a complete box lies in the middle row, wherever it was seen. */
  lemma UnplacedWear(d: Defect)
    requires d.bbox.None? || !d.bbox.value.Complete()
    ensures PlaceOf(d) == InRow(Mid)
  {
  }

  /** The same part seen on both covers is one corner, unless its box is centred exactly: then it counts on both sides. */
  lemma SameCornerFromBothSides(d: Defect, e: Defect)
    requires Mirrored(d, e)
    ensures PlaceOf(d) == PlaceOf(e) <==> Bounds(d).0 + Bounds(d).2 != 1000
  {
  }

  lemma CountedOnce(ds: seq<Defect>, d: Defect, e: Defect)
    requires e in ds && Counted(e) && Counted(d) && PlaceOf(e) == PlaceOf(d)
    ensures |WornCorners(ds + [d])| == |WornCorners(ds)|
  {
    OneMoreDetection(ds, d);
    match PlaceOf(d)
    case AtCorner(c) =>
      assert c in CoverCorners(ds);
    case InRow(row) =>
      assert row in WildcardRows(ds);
  }

  /** In any book, whichever cover is reported first, the second view of a part adds no corner. */
  lemma SecondViewAddsNothing(ds: seq<Defect>, d: Defect, e: Defect)
    requires Mirrored(d, e) && Bounds(d).0 + Bounds(d).2 != 1000
    ensures d in ds ==> |WornCorners(ds + [e])| == |WornCorners(ds)|
    ensures e in ds ==> |WornCorners(ds + [d])| == |WornCorners(ds)|
  {
    SameCornerFromBothSides(d, e);
    if d in ds {
      CountedOnce(ds, e, d);
    }
    if e in ds {
      CountedOnce(ds, d, e);
    }
  }

  lemma OneCover(d: Defect)
    requires Counted(d) && PlaceOf(d).AtCorner?
    ensures CoverCorners([d]) == {PlaceOf(d).corner}
  {
    assert [] + [d] == [d];
    ProfileOfOneMore([], d);
  }

  /** Exactly centred, the two views are two corners. */
  lemma CentredIsCountedTwice(d: Defect, e: Defect)
    requires Mirrored(d, e) && Bounds(d).0 + Bounds(d).2 == 1000
    ensures |WornCorners([d] + [e])| == |WornCorners([d])| + 1
  {
    CentredSides(d, e);
    TwoCorners(d, e);
  }

  lemma CentredSides(d: Defect, e: Defect)
    requires Mirrored(d, e) && Bounds(d).0 + Bounds(d).2 == 1000
    ensures PlaceOf(d).AtCorner? && PlaceOf(e).AtCorner? && PlaceOf(d) != PlaceOf(e)
    ensures RowOf(PlaceOf(d)) == RowOf(PlaceOf(e))
  {
    SameCornerFromBothSides(d, e);
  }

  lemma TwoCorners(d: Defect, e: Defect)
    requires Counted(d) && Counted(e) && PlaceOf(d).AtCorner? && PlaceOf(e).AtCorner?
    requires PlaceOf(d) != PlaceOf(e) && RowOf(PlaceOf(d)) == RowOf(PlaceOf(e))
    ensures |WornCorners([d] + [e])| == |WornCorners([d])| + 1
  {
    OneCover(d);
    OneMoreDetection([d], e);
    AnotherSide(PlaceOf(d).corner, WildcardRows([d]), PlaceOf(e));
  }

  lemma AnotherSide(c: Corner, rows: set<Row>, place: Place)
    requires place.AtCorner? && place.corner != c && place.corner.row == c.row
    ensures IsNewSpot({c}, rows, place)
  {
    assert c in InTheRow({c}, c.row);
  }

  /** The profile goes by the word alone: a soaked part that is also called worn is counted, unless it was dismissed. */
  lemma CountedByItsWord(d: Defect)
    requires d.kind == Classify(d.dtype)
    ensures Counted(d) <==> MentionsAny(d.dtype, ["WEAR", "마모"]) && !d.suspect
  {
    Codes.KindOfText(d.dtype);
    assert Codes.WordsOf(1) == ["WEAR", "마모"];
    if !NamesWear(d) && !d.kind.Wet? {
      Codes.NamesNoneBefore(d.dtype, 1);
    }
  }

  /** The largest area of a book is that of some wear in it, or 0. */
  lemma {:induction false} LargestArea(ds: seq<Defect>)
    ensures forall d :: d in ds && d.kind.Wear? && !d.suspect ==> EffectiveRatio(d, 0) <= MaxRatio(ds)
    ensures (forall d :: d in ds && !d.suspect ==> !d.kind.Wet?) ==>
              MaxRatio(ds) == 0 || exists d :: d in ds && d.kind.Wear? && !d.suspect && EffectiveRatio(d, 0) == MaxRatio(ds)
  {
    if ds == [] {
    } else {
      var n := |ds| - 1;
      LargestArea(ds[..n]);
      assert ds == ds[..n] + [ds[n]];
      assert ds[n] in ds && forall d :: d in ds[..n] ==> d in ds;
    }
  }
}
