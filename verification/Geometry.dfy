/** Intersection over union, as three parts of the program compute it. Floats are real numbers here. */
module Geometry {
  import opened Options
  import opened Defects

  datatype Rect = Rect(x1: real, y1: real, x2: real, y2: real) {
    function Width(): real { x2 - x1 }

    function Height(): real { y2 - y1 }

    function Area(): real { Width() * Height() }
  }

  function Max(a: real, b: real): real {
    if a < b then b else a
  }

  function Min(a: real, b: real): real {
    if a < b then a else b
  }

  function InterWidth(a: Rect, b: Rect): real {
    Max(0.0, Min(a.x2, b.x2) - Max(a.x1, b.x1))
  }

  function InterHeight(a: Rect, b: Rect): real {
    Max(0.0, Min(a.y2, b.y2) - Max(a.y1, b.y1))
  }

  function Intersection(a: Rect, b: Rect): real {
    InterWidth(a, b) * InterHeight(a, b)
  }

  function Union(a: Rect, b: Rect): real {
    a.Area() + b.Area() - Intersection(a, b)
  }

  /** calculate_iou in app/ai/wbf_detector.py. */
  function CalculateIou(a: Rect, b: Rect): real {
    if Intersection(a, b) == 0.0 then 0.0
    else if Union(a, b) == 0.0 then 0.0
    else Intersection(a, b) / Union(a, b)
  }

  /** The `_iou` inside vision_agent: no early exit, and only a positive union divides. */
  function LocalIou(a: Rect, b: Rect): real {
    if Union(a, b) > 0.0 then Intersection(a, b) / Union(a, b) else 0.0
  }

  /** The box of four reported integers. */
  function RectOf(b: BBox): Rect
    requires b.Complete()
  {
    Rect(b.xmin.value as real, b.ymin.value as real, b.xmax.value as real, b.ymax.value as real)
  }

  /** _bbox_iou in app/ai/agents/vision.py: 0 for a missing box or coordinate. */
  function BboxIou(a: Option<BBox>, b: Option<BBox>): real {
    if a.None? || b.None? || !a.value.Complete() || !b.value.Complete() then 0.0
    else
      var ra, rb := RectOf(a.value), RectOf(b.value);
      if Intersection(ra, rb) <= 0.0 then 0.0
      else if Union(ra, rb) > 0.0 then Intersection(ra, rb) / Union(ra, rb)
      else 0.0
  }

  lemma MulMonotone(a: real, b: real, c: real, d: real)
    requires 0.0 <= a <= c && 0.0 <= b <= d
    ensures 0.0 <= a * b <= c * d
  {
    assert a * b <= a * d;
    assert a * d <= c * d;
  }

  /** Boxes that overlap are not inverted, and their overlap lies within each of them. */
  lemma OverlapIsInside(a: Rect, b: Rect)
    requires Intersection(a, b) != 0.0
    ensures 0.0 < InterWidth(a, b) <= a.Width() && 0.0 < InterHeight(a, b) <= a.Height()
    ensures 0.0 < Intersection(a, b) <= a.Area()
  {
    var w, h := InterWidth(a, b), InterHeight(a, b);
    assert w != 0.0 && h != 0.0;
    MulMonotone(w, h, a.Width(), a.Height());
    assert w * h > 0.0;
  }

  lemma IntersectionSymmetric(a: Rect, b: Rect)
    ensures Intersection(a, b) == Intersection(b, a) && Union(a, b) == Union(b, a)
  {
  }

  lemma QuotientRange(n: real, d: real)
    requires 0.0 < n <= d
    ensures 0.0 < n / d <= 1.0 && (n / d == 1.0 <==> n == d)
  {
    assert n / d * d == n;
  }

  /** Of two rectangles with one inside the other, only equal ones have equal areas. */
  lemma SmallerFactorsSmallerProduct(a: real, b: real, c: real, d: real)
    requires 0.0 < a <= c && 0.0 < b <= d
    ensures a < c || b < d ==> a * b < c * d
  {
    assert a * b <= c * b;
    assert c * b <= c * d;
    if a < c {
      assert a * b < c * b;
    }
    if b < d {
      assert c * b < c * d;
    }
  }

  /** Whatever the boxes, inverted ones included: symmetric, between 0 and 1, and 1 only for one and the same proper box. */
  lemma IouLaws(a: Rect, b: Rect)
    ensures CalculateIou(a, b) == CalculateIou(b, a)
    ensures 0.0 <= CalculateIou(a, b) <= 1.0
    ensures CalculateIou(a, b) == 1.0 <==> a == b && a.x1 < a.x2 && a.y1 < a.y2
  {
    IntersectionSymmetric(a, b);
    if a.x1 < a.x2 && a.y1 < a.y2 {
      ProperBoxOverlapsItself(a);
    }
    if Intersection(a, b) != 0.0 {
      OverlapIsInside(a, b);
      OverlapIsInside(b, a);
      QuotientRange(Intersection(a, b), Union(a, b));
      if Intersection(a, b) == Union(a, b) {
        FullOverlapIsEquality(a, b);
      }
    }
  }

  lemma FullOverlapIsEquality(a: Rect, b: Rect)
    requires Intersection(a, b) != 0.0 && Intersection(a, b) == Union(a, b)
    ensures a == b && a.x1 < a.x2 && a.y1 < a.y2
  {
    IntersectionSymmetric(a, b);
    OverlapIsInside(a, b);
    OverlapIsInside(b, a);
    SmallerFactorsSmallerProduct(InterWidth(a, b), InterHeight(a, b), a.Width(), a.Height());
    SmallerFactorsSmallerProduct(InterWidth(b, a), InterHeight(b, a), b.Width(), b.Height());
  }

  lemma ProperBoxOverlapsItself(a: Rect)
    requires a.x1 < a.x2 && a.y1 < a.y2
    ensures Intersection(a, a) == a.Area() > 0.0
  {
    assert InterWidth(a, a) == a.Width() && InterHeight(a, a) == a.Height();
    assert a.Width() * a.Height() > 0.0;
  }

  lemma RowAreas(w1: real, w2: real, w: real, h: real)
    requires h > 0.0 && w >= 0.0 && w1 + w2 - w > 0.0
    ensures w1 * h + w2 * h - w * h > 0.0
    ensures w * h / (w1 * h + w2 * h - w * h) * (w1 + w2 - w) == w
  {
    var u := w1 + w2 - w;
    assert w1 * h + w2 * h - w * h == u * h && u * h > 0.0;
    assert w * h / (u * h) == w / u by {
      assert w / u * u == w;
      assert w / u * (u * h) == w * h;
    }
  }

  /** Two boxes of one row that overlap: the overlap is to the whole stretch as their common width is to it. */
  lemma OverlapInARow(left: real, left': real, right: real, right': real, top: real, bottom: real)
    requires left <= left' < right <= right' && top < bottom
    ensures CalculateIou(Rect(left, top, right, bottom), Rect(left', top, right', bottom)) * (right' - left) == right - left'
  {
    var a, b := Rect(left, top, right, bottom), Rect(left', top, right', bottom);
    var h := bottom - top;
    assert InterWidth(a, b) == right - left' && InterHeight(a, b) == h;
    RowAreas(right - left, right' - left', right - left', h);
    assert (right - left) + (right' - left') - (right - left') == right' - left;
    assert (right - left') * h > 0.0;
  }

  function Transposed(r: Rect): Rect {
    Rect(r.y1, r.x1, r.y2, r.x2)
  }

  /** Rows and columns are alike. */
  lemma OverlapTransposed(a: Rect, b: Rect)
    ensures CalculateIou(Transposed(a), Transposed(b)) == CalculateIou(a, b)
  {
    var a', b' := Transposed(a), Transposed(b);
    FactorsCommute(InterWidth(a, b), InterHeight(a, b));
    FactorsCommute(a.Width(), a.Height());
    FactorsCommute(b.Width(), b.Height());
    assert Intersection(a', b') == Intersection(a, b) by {
      assert InterWidth(a', b') == InterHeight(a, b) && InterHeight(a', b') == InterWidth(a, b);
    }
    assert a'.Area() == a.Area() && b'.Area() == b.Area();
    SameParts(a', b', a, b);
  }

  lemma FactorsCommute(x: real, y: real)
    ensures x * y == y * x
  {
  }

  lemma SameParts(a: Rect, b: Rect, c: Rect, d: Rect)
    requires Intersection(a, b) == Intersection(c, d) && a.Area() == c.Area() && b.Area() == d.Area()
    ensures CalculateIou(a, b) == CalculateIou(c, d)
  {
    assert Union(a, b) == Union(c, d);
  }

  /** One inside the other: the ratio of their areas. Side by side: nothing. */
  lemma OverlapInside(a: Rect, b: Rect)
    requires a.x1 <= b.x1 < b.x2 <= a.x2 && a.y1 <= b.y1 < b.y2 <= a.y2
    ensures a.Area() > 0.0 && CalculateIou(a, b) * a.Area() == b.Area()
  {
    assert InterWidth(a, b) == b.Width() && InterHeight(a, b) == b.Height();
    assert b.Width() * b.Height() > 0.0;
    MulMonotone(b.Width(), b.Height(), a.Width(), a.Height());
    assert Union(a, b) == a.Area();
    assert b.Area() / a.Area() * a.Area() == b.Area();
  }

  lemma NoOverlapBeside(a: Rect, b: Rect)
    requires a.x2 <= b.x1 || b.x2 <= a.x1 || a.y2 <= b.y1 || b.y2 <= a.y1
    ensures CalculateIou(a, b) == 0.0
  {
    assert InterWidth(a, b) == 0.0 || InterHeight(a, b) == 0.0;
  }

  /** In exact arithmetic the three computations agree on every pair of integer boxes. */
  lemma IousAgree(a: BBox, b: BBox)
    requires a.Complete() && b.Complete()
    ensures BboxIou(Some(a), Some(b)) == CalculateIou(RectOf(a), RectOf(b)) == LocalIou(RectOf(a), RectOf(b))
  {
    var ra, rb := RectOf(a), RectOf(b);
    if Intersection(ra, rb) != 0.0 {
      IntersectionSymmetric(ra, rb);
      OverlapIsInside(ra, rb);
      OverlapIsInside(rb, ra);
      assert Union(ra, rb) > 0.0;
    }
  }

  /** The overlap of reported boxes: symmetric, between 0 and 1 whatever is missing or inverted, and 1 only for one and the
      same proper box. */
  lemma BboxIouLaws(a: Option<BBox>, b: Option<BBox>)
    ensures BboxIou(a, b) == BboxIou(b, a)
    ensures 0.0 <= BboxIou(a, b) <= 1.0
    ensures BboxIou(a, b) == 1.0 <==>
              && a == b && a.Some? && a.value.Complete()
              && a.value.xmin.value < a.value.xmax.value && a.value.ymin.value < a.value.ymax.value
  {
    if a.Some? && b.Some? && a.value.Complete() && b.value.Complete() {
      var ra, rb := RectOf(a.value), RectOf(b.value);
      IousAgree(a.value, b.value);
      IousAgree(b.value, a.value);
      IouLaws(ra, rb);
      assert ra == rb <==> a.value == b.value;
    }
  }
}
