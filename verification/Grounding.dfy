/**
 Detection of invented coordinates (_flag_ungrounded_bboxes in app/ai/agents/vision.py):
 a vision model that cannot place a defect repeats one box, lines boxes up at even
 distances, or boxes the whole frame.
 */
module Grounding {
  import opened Options
  import opened Defects
  import Bags
  import Sorting

  /** The coordinates of a box, 0 for a missing one. */
  datatype Coords = Coords(x1: int, y1: int, x2: int, y2: int)

  type Point = (int, int)

  predicate VlmOwned(d: Defect) {
    d.bbox.Some? && d.source != FromYolo && !d.adopted
  }

  function Key(d: Defect): Coords {
    match d.bbox
    case None => Coords(0, 0, 0, 0)
    case Some(b) => Coords(b.xmin.GetOr(0), b.ymin.GetOr(0), b.xmax.GetOr(0), b.ymax.GetOr(0))
  }

  function SizeOf(d: Defect): (int, int) {
    (Key(d).x2 - Key(d).x1, Key(d).y2 - Key(d).y1)
  }

  function CornerOf(d: Defect): Point {
    (Key(d).x1, Key(d).y1)
  }

  function Shot(d: Defect): int {
    d.imageIndex.GetOr(0)
  }

  // --- The three rules, without an order ----------------------------------------------------

  const FULL_FRAME_AREA := 880_000

  /** A local defect that covers 88 % of the frame. */
  predicate NearFullFrame(d: Defect) {
    && d.dtype != WET_CODE && d.dtype != DISCOLOR_CODE
    && SizeOf(d).0 * SizeOf(d).1 >= FULL_FRAME_AREA
  }

  /** The same box in another shot. */
  predicate Repeated(ds: seq<Defect>, d: Defect) {
    exists e :: e in ds && VlmOwned(e) && Key(e) == Key(d) && Shot(e) != Shot(d)
  }

  function Corners(ds: seq<Defect>, size: (int, int)): set<Point> {
    set e | e in ds && VlmOwned(e) && SizeOf(e) == size :: CornerOf(e)
  }

  function Line(start: Point, step: Point, n: nat): set<Point> {
    set k | 0 <= k < n :: (start.0 + k * step.0, start.1 + k * step.1)
  }

  /** Three or more points at even distances on a line. */
  ghost predicate EvenlySpaced(points: set<Point>) {
    |points| >= 3 && exists start, step :: points == Line(start, step, |points|)
  }

  ghost predicate Ungrounded(ds: seq<Defect>, d: Defect) {
    VlmOwned(d) && (NearFullFrame(d) || Repeated(ds, d) || EvenlySpaced(Corners(ds, SizeOf(d))))
  }

  /** Which boxes are invented depends on what was reported, not on the order of the report. */
  lemma MarksIgnoreOrder(a: seq<Defect>, b: seq<Defect>, d: Defect)
    requires multiset(a) == multiset(b)
    ensures Ungrounded(a, d) <==> Ungrounded(b, d)
  {
    assert forall e :: e in a <==> e in multiset(a);
    assert forall e :: e in b <==> e in multiset(b);
    assert Corners(a, SizeOf(d)) == Corners(b, SizeOf(d));
  }

  // --- Points in order -------------------------------------------------------------------------

  predicate Before(p: Point, q: Point) {
    p.0 < q.0 || (p.0 == q.0 && p.1 < q.1)
  }

  ghost predicate Ascending(s: seq<Point>) {
    forall i, j :: 0 <= i < j < |s| ==> Before(s[i], s[j])
  }

  const EARLIER := (p: Point, q: Point) => Before(p, q)

  lemma InsertedKeeps(s: seq<Point>, p: Point)
    requires Ascending(s) && p !in s
    ensures Ascending(Sorting.Inserted(s, p, EARLIER)) && |Sorting.Inserted(s, p, EARLIER)| == |s| + 1
    ensures forall q :: q in Sorting.Inserted(s, p, EARLIER) <==> q in s || q == p
  {
    var t := Sorting.Inserted(s, p, EARLIER);
    Sorting.InsertedOrdered(s, p, EARLIER);
    Sorting.InsertedHas(s, p, EARLIER);
    Sorting.InsertedMembers(s, p, EARLIER);
    Sorting.DistinctInserted(s, p, EARLIER);
    forall i, j | 0 <= i < j < |t|
      ensures Before(t[i], t[j])
    {
      assert !EARLIER(t[j], t[i]) && t[i] != t[j];
    }
  }

  /** Python's `sorted` on a set of points. */
  method SortPoints(points: set<Point>) returns (s: seq<Point>)
    ensures Ascending(s) && |s| == |points|
    ensures forall q :: q in s <==> q in points
  {
    s := [];
    var rest := points;
    while rest != {}
      invariant rest <= points && Ascending(s) && |s| + |rest| == |points|
      invariant forall q :: q in s <==> q in points - rest
      decreases rest
    {
      var p :| p in rest;
      InsertedKeeps(s, p);
      s := Sorting.Inserted(s, p, EARLIER);
      rest := rest - {p};
    }
  }

  predicate EvenSteps(s: seq<Point>)
    requires |s| >= 2
  {
    var dx, dy := s[1].0 - s[0].0, s[1].1 - s[0].1;
    forall i :: 0 <= i < |s| - 1 ==> s[i + 1] == (s[i].0 + dx, s[i].1 + dy)
  }

  /** One ascending order per set. */
  lemma {:induction false} AscendingIsUnique(s: seq<Point>, t: seq<Point>)
    requires Ascending(s) && Ascending(t)
    requires forall q :: q in s <==> q in t
    ensures s == t
  {
    assert t != [] ==> t[0] in t;
    if s == [] {
    } else {
      assert s[0] in t && t[0] in s;
      assert s[0] == t[0];
      assert forall q :: q in s[1..] <==> q in s && q != s[0];
      assert forall q :: q in t[1..] <==> q in t && q != t[0];
      AscendingIsUnique(s[1..], t[1..]);
    }
  }

  function Steps(start: Point, step: Point, n: nat): seq<Point> {
    seq(n, k => (start.0 + k * step.0, start.1 + k * step.1))
  }

  lemma StepsAreLine(start: Point, step: Point, n: nat)
    ensures forall q :: q in Steps(start, step, n) <==> q in Line(start, step, n)
  {
    var s := Steps(start, step, n);
    forall q | q in Line(start, step, n)
      ensures q in s
    {
      var k :| 0 <= k < n && q == (start.0 + k * step.0, start.1 + k * step.1);
      assert s[k] == q;
    }
  }

  lemma MulStrict(i: int, j: int, d: int)
    requires i < j
    ensures d > 0 ==> i * d < j * d
    ensures d == 0 ==> i * d == j * d
  {
  }

  lemma StepsAscend(start: Point, step: Point, n: nat)
    requires Before((0, 0), step)
    ensures Ascending(Steps(start, step, n))
  {
    forall i, j | 0 <= i < j < n
      ensures Before(Steps(start, step, n)[i], Steps(start, step, n)[j])
    {
      MulStrict(i, j, step.0);
      MulStrict(i, j, step.1);
    }
  }

  lemma OneStepFurther(a: int, d: int, i: int)
    ensures a + (i + 1) * d == a + i * d + d
  {
    assert (i + 1) * d == i * d + d;
  }

  lemma StepsAreEven(start: Point, step: Point, n: nat)
    requires n >= 2
    ensures EvenSteps(Steps(start, step, n))
  {
    var s := Steps(start, step, n);
    forall i | 0 <= i < n - 1
      ensures s[i + 1] == (s[i].0 + step.0, s[i].1 + step.1)
    {
      OneStepFurther(start.0, step.0, i);
      OneStepFurther(start.1, step.1, i);
    }
    assert s[1] == (s[0].0 + step.0, s[0].1 + step.1);
  }

  lemma CountedBack(a: int, d: int, e: int, n: nat, k: int)
    requires e == a + (n - 1) * d
    ensures a + k * d == e + (n - 1 - k) * -d
  {
    var m := n - 1 - k;
    assert m * -d == -(m * d) && (n - 1) * d == (k + m) * d == k * d + m * d;
  }

  lemma BackPoint(start: Point, step: Point, end: Point, n: nat, k: nat)
    requires k < n && end == (start.0 + (n - 1) * step.0, start.1 + (n - 1) * step.1)
    ensures (start.0 + k * step.0, start.1 + k * step.1) in Line(end, (-step.0, -step.1), n)
  {
    CountedBack(start.0, step.0, end.0, n, k);
    CountedBack(start.1, step.1, end.1, n, k);
    PointOnLine(end, (-step.0, -step.1), n, n - 1 - k);
  }

  lemma PointOnLine(start: Point, step: Point, n: nat, k: nat)
    requires k < n
    ensures (start.0 + k * step.0, start.1 + k * step.1) in Line(start, step, n)
  {
  }

  lemma BackOnLine(start: Point, step: Point, end: Point, n: nat)
    requires n > 0 && end == (start.0 + (n - 1) * step.0, start.1 + (n - 1) * step.1)
    ensures Line(start, step, n) <= Line(end, (-step.0, -step.1), n)
  {
    forall k: nat | k < n
      ensures (start.0 + k * step.0, start.1 + k * step.1) in Line(end, (-step.0, -step.1), n)
    {
      BackPoint(start, step, end, n, k);
    }
  }

  /** The same line, walked from its other end. */
  lemma LineReversed(start: Point, step: Point, n: nat)
    requires n > 0
    ensures var end := (start.0 + (n - 1) * step.0, start.1 + (n - 1) * step.1);
            Line(start, step, n) == Line(end, (-step.0, -step.1), n)
  {
    var end := (start.0 + (n - 1) * step.0, start.1 + (n - 1) * step.1);
    BackOnLine(start, step, end, n);
    CountedBack(start.0, step.0, end.0, n, 0);
    CountedBack(start.1, step.1, end.1, n, 0);
    BackOnLine(end, (-step.0, -step.1), start, n);
  }

  lemma EvenStepsFromStart(s: seq<Point>, i: nat)
    requires |s| >= 2 && EvenSteps(s) && i < |s|
    ensures s[i] == (s[0].0 + i * (s[1].0 - s[0].0), s[0].1 + i * (s[1].1 - s[0].1))
  {
    var dx, dy := s[1].0 - s[0].0, s[1].1 - s[0].1;
    if i > 0 {
      EvenStepsFromStart(s, i - 1);
      assert i * dx == (i - 1) * dx + dx && i * dy == (i - 1) * dy + dy;
      assert s[i - 1 + 1] == (s[i - 1].0 + dx, s[i - 1].1 + dy);
    }
  }

  /** Comparing consecutive sorted corners decides whether the set is evenly spaced at all. */
  lemma SortedStepsDecide(points: set<Point>, s: seq<Point>)
    requires Ascending(s) && |s| == |points| >= 3
    requires forall q :: q in s <==> q in points
    ensures EvenSteps(s) <==> EvenlySpaced(points)
  {
    var n := |s|;
    if EvenSteps(s) {
      var step := (s[1].0 - s[0].0, s[1].1 - s[0].1);
      forall i | 0 <= i < n
        ensures s[i] == Steps(s[0], step, n)[i]
      {
        EvenStepsFromStart(s, i);
      }
      assert s == Steps(s[0], step, n);
      StepsAreLine(s[0], step, n);
      assert points == Line(s[0], step, n);
    }
    if EvenlySpaced(points) {
      var start, step :| points == Line(start, step, n);
      LineNeedsAStep(start, step, n);
      if !Before((0, 0), step) {
        LineReversed(start, step, n);
        start, step := (start.0 + (n - 1) * step.0, start.1 + (n - 1) * step.1), (-step.0, -step.1);
      }
      StepsAreLine(start, step, n);
      StepsAscend(start, step, n);
      AscendingIsUnique(s, Steps(start, step, n));
      StepsAreEven(start, step, n);
    }
  }

  lemma LineNeedsAStep(start: Point, step: Point, n: nat)
    requires |Line(start, step, n)| >= 2
    ensures step != (0, 0)
  {
    if step == (0, 0) {
      assert Line(start, step, n) <= {start};
      Bags.SubsetSize(Line(start, step, n), {start});
    }
  }

  // --- The rules as they are applied -------------------------------------------------------------

  /** `setdefault(key, []).append(...)`: the positions that share a key. */
  method GroupBy<K(==)>(positions: set<nat>, keys: seq<K>) returns (groups: map<K, set<nat>>)
    requires forall i :: i in positions ==> i < |keys|
    ensures forall k :: k in groups ==> groups[k] == (set i | i in positions && keys[i] == k)
    ensures forall i :: i in positions ==> keys[i] in groups
  {
    groups := map[];
    var rest := positions;
    while rest != {}
      invariant rest <= positions
      invariant forall k :: k in groups ==> groups[k] == (set i | i in positions - rest && keys[i] == k)
      invariant forall i :: i in positions - rest ==> keys[i] in groups
      decreases rest
    {
      var i :| i in rest;
      var before := if keys[i] in groups then groups[keys[i]] else {};
      groups := groups[keys[i] := before + {i}];
      rest := rest - {i};
    }
  }

  /** R3: near-full-frame boxes of local defects. */
  method FlagFullFrame(defects: seq<Defect>, owned: set<nat>) returns (flagged: set<nat>)
    requires forall i :: i in owned ==> i < |defects|
    ensures flagged == set i | i in owned && NearFullFrame(defects[i])
  {
    flagged := {};
    var rest := owned;
    while rest != {}
      invariant rest <= owned
      invariant flagged == set i | i in owned - rest && NearFullFrame(defects[i])
      decreases rest
    {
      var i :| i in rest;
      rest := rest - {i};
      var d := defects[i];
      if d.dtype == WET_CODE || d.dtype == DISCOLOR_CODE {
        continue;
      }
      var k := Key(d);
      if (k.x2 - k.x1) * (k.y2 - k.y1) >= FULL_FRAME_AREA {
        flagged := flagged + {i};
      }
    }
  }

  function Owned(ds: seq<Defect>): set<nat> {
    set i: nat | i < |ds| && VlmOwned(ds[i])
  }

  /** R1: groups of equal coordinates that span several shots. */
  method FlagRepeated(defects: seq<Defect>, owned: set<nat>) returns (flagged: set<nat>)
    requires owned == Owned(defects)
    ensures flagged == set i | i in owned && Repeated(defects, defects[i])
  {
    var keys := seq(|defects|, i requires 0 <= i < |defects| => Key(defects[i]));
    var groups := GroupBy(owned, keys);
    flagged := {};
    var rest := groups.Keys;
    while rest != {}
      invariant rest <= groups.Keys
      invariant flagged == set i | i in owned && keys[i] !in rest && Repeated(defects, defects[i])
      decreases rest
    {
      var k :| k in rest;
      var group := groups[k];
      var shots := set g | g in group :: Shot(defects[g]);
      if |shots| >= 2 {
        forall i | i in group
          ensures Repeated(defects, defects[i])
        {
          var other := AnotherElement(shots, Shot(defects[i]));
          var g :| g in group && Shot(defects[g]) == other;
          assert defects[g] in defects && VlmOwned(defects[g]);
        }
        flagged := flagged + group;
      } else {
        forall i | i in group
          ensures !Repeated(defects, defects[i])
        {
          if Repeated(defects, defects[i]) {
            var e :| e in defects && VlmOwned(e) && Key(e) == Key(defects[i]) && Shot(e) != Shot(defects[i]);
            var g :| 0 <= g < |defects| && defects[g] == e;
            assert g in group && {Shot(defects[g]), Shot(defects[i])} <= shots;
            TwoElements(shots, Shot(defects[g]), Shot(defects[i]));
          }
        }
      }
      rest := rest - {k};
    }
    assert forall i :: i in owned ==> keys[i] in groups.Keys;
  }

  lemma AnotherElement(s: set<int>, x: int) returns (y: int)
    requires |s| >= 2
    ensures y in s && y != x
  {
    if forall z :: z in s ==> z == x {
      assert s <= {x};
      Bags.SubsetSize(s, {x});
    }
    y :| y in s && y != x;
  }

  lemma TwoElements(s: set<int>, x: int, y: int)
    requires x in s && y in s && x != y
    ensures |s| >= 2
  {
    assert s == {x, y} + (s - {x, y});
  }

  /** R2: groups of one size whose corners advance by one constant step. */
  method FlagProgressions(defects: seq<Defect>, owned: set<nat>) returns (flagged: set<nat>)
    requires owned == Owned(defects)
    ensures flagged == set i | i in owned && EvenlySpaced(Corners(defects, SizeOf(defects[i])))
  {
    var sizes := seq(|defects|, i requires 0 <= i < |defects| => SizeOf(defects[i]));
    var groups := GroupBy(owned, sizes);
    flagged := {};
    var rest := groups.Keys;
    while rest != {}
      invariant rest <= groups.Keys
      invariant flagged == set i | i in owned && sizes[i] !in rest && EvenlySpaced(Corners(defects, sizes[i]))
      decreases rest
    {
      var size :| size in rest;
      var group := groups[size];
      var even := IsProgression(defects, owned, size, group);
      if even {
        flagged := flagged + group;
      }
      rest := rest - {size};
    }
    assert forall i :: i in owned ==> sizes[i] in groups.Keys;
  }

  method IsProgression(defects: seq<Defect>, ghost owned: set<nat>, size: (int, int), group: set<nat>) returns (even: bool)
    requires owned == Owned(defects)
    requires group == set i | i in owned && SizeOf(defects[i]) == size
    ensures even <==> EvenlySpaced(Corners(defects, size))
  {
    var corners := set g | g in group :: CornerOf(defects[g]);
    CornersOfGroup(defects, owned, size, group);
    even := AreEvenlySpaced(group, corners);
  }

  lemma CornersOfGroup(defects: seq<Defect>, owned: set<nat>, size: (int, int), group: set<nat>)
    requires owned == Owned(defects)
    requires group == set i | i in owned && SizeOf(defects[i]) == size
    ensures (set g | g in group :: CornerOf(defects[g])) == Corners(defects, size)
    ensures |Corners(defects, size)| <= |group|
  {
    forall p | p in Corners(defects, size)
      ensures p in set g | g in group :: CornerOf(defects[g])
    {
      var e :| e in defects && VlmOwned(e) && SizeOf(e) == size && CornerOf(e) == p;
      var g :| 0 <= g < |defects| && defects[g] == e;
      assert g in group;
    }
    ImageNoLarger(defects, group);
  }

  lemma ImageNoLarger(defects: seq<Defect>, group: set<nat>)
    requires forall g :: g in group ==> g < |defects|
    ensures |set g | g in group :: CornerOf(defects[g])| <= |group|
    decreases group
  {
    if group != {} {
      var g :| g in group;
      var rest := group - {g};
      ImageNoLarger(defects, rest);
      var image, image' := set i | i in group :: CornerOf(defects[i]), set i | i in rest :: CornerOf(defects[i]);
      assert image == image' + {CornerOf(defects[g])};
    }
  }

  /** Fewer than three boxes, or fewer than three different corners, are no pattern. */
  method AreEvenlySpaced(group: set<nat>, corners: set<Point>) returns (even: bool)
    requires |corners| <= |group|
    ensures even <==> EvenlySpaced(corners)
  {
    if |group| < 3 {
      return false;
    }
    var pts := SortPoints(corners);
    if |pts| < 3 {
      return false;
    }
    SortedStepsDecide(corners, pts);
    var dx, dy := pts[1].0 - pts[0].0, pts[1].1 - pts[0].1;
    even := (dx, dy) != (0, 0) && forall i | 0 <= i < |pts| - 1 :: (pts[i + 1].0 - pts[i].0, pts[i + 1].1 - pts[i].1) == (dx, dy);
    assert Before(pts[0], pts[1]);
    assert EvenSteps(pts) <==> forall i :: 0 <= i < |pts| - 1 ==> (pts[i + 1].0 - pts[i].0, pts[i + 1].1 - pts[i].1) == (dx, dy);
  }

  ghost function UngroundedPositions(ds: seq<Defect>): set<nat> {
    set i: nat | i < |ds| && Ungrounded(ds, ds[i])
  }

  lemma RulesTogether(ds: seq<Defect>, full: set<nat>, repeated: set<nat>, spaced: set<nat>)
    requires full == set i | i in Owned(ds) && NearFullFrame(ds[i])
    requires repeated == set i | i in Owned(ds) && Repeated(ds, ds[i])
    requires spaced == set i | i in Owned(ds) && EvenlySpaced(Corners(ds, SizeOf(ds[i])))
    ensures full + repeated + spaced == UngroundedPositions(ds)
  {
    forall i: nat
      ensures i in full + repeated + spaced <==> i in UngroundedPositions(ds)
    {
      if i < |ds| && VlmOwned(ds[i]) {
        assert i in Owned(ds);
      }
    }
  }

  /** The flagged positions, with the early return for fewer than two boxes. */
  method FlagAll(defects: seq<Defect>, owned: set<nat>) returns (flagged: set<nat>)
    requires owned == Owned(defects)
    ensures flagged == UngroundedPositions(defects)
  {
    flagged := FlagFullFrame(defects, owned);
    if |owned| < 2 {
      OneBoxIsNoPattern(defects, owned);
      RulesTogether(defects, flagged, {}, {});
      assert flagged + {} + {} == flagged;
      return;
    }
    var repeated := FlagRepeated(defects, owned);
    var spaced := FlagProgressions(defects, owned);
    RulesTogether(defects, flagged, repeated, spaced);
    flagged := flagged + repeated + spaced;
  }

  /** _flag_ungrounded_bboxes: it marks, removes nothing, and returns how many it marked. */
  method FlagUngroundedBboxes(defects: seq<Defect>) returns (marked: seq<Defect>, count: nat)
    ensures marked == Marked(defects, UngroundedPositions(defects))
    ensures count == |UngroundedPositions(defects)|
  {
    var owned := Owned(defects);
    var flagged := FlagAll(defects, owned);
    count := |flagged|;
    marked := Mark(defects, flagged);
  }

  function Marked(ds: seq<Defect>, flagged: set<nat>): (r: seq<Defect>)
    ensures |r| == |ds|
  {
    seq(|ds|, i requires 0 <= i < |ds| => if i in flagged then ds[i].(ungrounded := true) else ds[i])
  }

  method Mark(defects: seq<Defect>, flagged: set<nat>) returns (marked: seq<Defect>)
    ensures marked == Marked(defects, flagged)
  {
    marked := defects;
    for i := 0 to |defects|
      invariant |marked| == |defects|
      invariant forall j :: 0 <= j < i ==>
                  marked[j] == if j in flagged then defects[j].(ungrounded := true) else defects[j]
      invariant forall j :: i <= j < |defects| ==> marked[j] == defects[j]
    {
      if i in flagged {
        marked := marked[i := marked[i].(ungrounded := true)];
      }
    }
  }

  /** With one box of its own, the vision model shows no pattern between boxes. */
  lemma OneBoxIsNoPattern(ds: seq<Defect>, owned: set<nat>)
    requires owned == Owned(ds) && |owned| < 2
    ensures forall i :: i in owned ==> !Repeated(ds, ds[i]) && !EvenlySpaced(Corners(ds, SizeOf(ds[i])))
  {
    forall i | i in owned
      ensures !Repeated(ds, ds[i]) && !EvenlySpaced(Corners(ds, SizeOf(ds[i])))
    {
      assert owned == {i} + (owned - {i});
      var group := set j | j in owned && SizeOf(ds[j]) == SizeOf(ds[i]);
      assert group == {i};
      CornersOfGroup(ds, owned, SizeOf(ds[i]), group);
      forall e | e in ds && VlmOwned(e)
        ensures e == ds[i]
      {
        var g :| 0 <= g < |ds| && ds[g] == e;
        assert g in owned;
      }
    }
  }
}
