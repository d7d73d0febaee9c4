/**
 The edge-wear profile (app/ai/agents/policy.py): worn corners are counted by where they
 lie on the book, not by how often they were detected.
 */
module EdgeWear {
  import opened Options
  import opened Defects
  import Bags

  datatype Row = Top | Mid | Bottom
  datatype Col = Left | Right | Side
  datatype Corner = Corner(row: Row, col: Col)

  /** What one detection says: a corner of the book, or only a row. */
  datatype Place = AtCorner(corner: Corner) | InRow(row: Row)

  predicate NamesWear(d: Defect) {
    d.kind.Wear? || (d.kind.Wet? && d.kind.alsoWear)
  }

  predicate Counted(d: Defect) {
    NamesWear(d) && !d.suspect
  }

  /** Shot 0 is the front cover, shot 1 the back cover with left and right swapped; the
      centre is compared through twice its coordinates. */
  function PlaceOf(d: Defect): Place {
    if d.bbox.None? || !d.bbox.value.Complete() then InRow(Mid)
    else
      var b := d.bbox.value;
      var cy2, cx2 := b.ymin.value + b.ymax.value, b.xmin.value + b.xmax.value;
      var row := if cy2 < 666 then Top else if cy2 > 1334 then Bottom else Mid;
      if d.imageIndex == Some(0) then AtCorner(Corner(row, if cx2 < 1000 then Left else Right))
      else if d.imageIndex == Some(1) then AtCorner(Corner(row, if cx2 < 1000 then Right else Left))
      else InRow(row)
  }

  // --- The profile without an order -----------------------------------------------------

  function CoverCorners(ds: seq<Defect>): set<Corner> {
    set d | d in ds && Counted(d) && PlaceOf(d).AtCorner? :: PlaceOf(d).corner
  }

  function WildcardRows(ds: seq<Defect>): set<Row> {
    set d | d in ds && Counted(d) && PlaceOf(d).InRow? :: PlaceOf(d).row
  }

  function InTheRow(corners: set<Corner>, row: Row): set<Corner> {
    set c | c in corners && c.row == row
  }

  /** A row seen only without a side counts as one spot; with a cover corner in it, it adds nothing. */
  function Spots(cover: set<Corner>, rows: set<Row>, row: Row): set<Corner> {
    InTheRow(cover, row) + if row in rows && InTheRow(cover, row) == {} then {Corner(row, Side)} else {}
  }

  function WornCorners(ds: seq<Defect>): set<Corner> {
    var cover, rows := CoverCorners(ds), WildcardRows(ds);
    Spots(cover, rows, Top) + Spots(cover, rows, Mid) + Spots(cover, rows, Bottom)
  }

  function MaxRatio(ds: seq<Defect>): int {
    if ds == [] then 0
    else
      var rest, d := MaxRatio(ds[..|ds| - 1]), ds[|ds| - 1];
      if Counted(d) && EffectiveRatio(d, 0) > rest then EffectiveRatio(d, 0) else rest
  }

  // --- The profile as it is computed ------------------------------------------------------

  /** _edge_wear_profile */
  method EdgeWearProfile(defects: seq<Defect>) returns (corners: set<Corner>, maxRatio: int)
    ensures corners == WornCorners(defects)
    ensures maxRatio == MaxRatio(defects)
  {
    corners := {};
    var wildcardRows: set<Row> := {};
    maxRatio := 0;
    for i := 0 to |defects|
      invariant corners == CoverCorners(defects[..i])
      invariant wildcardRows == WildcardRows(defects[..i])
      invariant maxRatio == MaxRatio(defects[..i])
    {
      var d := defects[i];
      assert defects[..i + 1][..i] == defects[..i];
      assert forall e :: e in defects[..i + 1] <==> e in defects[..i] || e == d;
      if !NamesWear(d) || d.suspect {
        continue;
      }
      maxRatio := if EffectiveRatio(d, 0) > maxRatio then EffectiveRatio(d, 0) else maxRatio;
      match PlaceOf(d)
      case InRow(row) => wildcardRows := wildcardRows + {row};
      case AtCorner(corner) => corners := corners + {corner};
    }
    assert defects[..|defects|] == defects;
    ghost var cover := corners;
    var todo := wildcardRows;
    while todo != {}
      invariant todo <= wildcardRows
      invariant forall c :: c in corners <==> c in cover || (c.col == Side && c.row in wildcardRows - todo && InTheRow(cover, c.row) == {})
      decreases todo
    {
      var row :| row in todo;
      assert row !in wildcardRows - todo;
      if !exists c | c in corners :: c.row == row {
        assert InTheRow(cover, row) == {} by {
          assert forall c :: c in InTheRow(cover, row) ==> c in corners;
        }
        corners := corners + {Corner(row, Side)};
      } else {
        var c :| c in corners && c.row == row;
        assert c in InTheRow(cover, row);
      }
      todo := todo - {row};
    }
    SidesAreNew(defects);
    assert corners == WornCorners(defects);
  }

  /** Cover corners never lie on the unknown side, and every row is one of the three. */
  lemma SidesAreNew(ds: seq<Defect>)
    ensures forall c :: c in WornCorners(ds) <==>
              c in CoverCorners(ds) || (c.col == Side && c.row in WildcardRows(ds) && InTheRow(CoverCorners(ds), c.row) == {})
  {
    forall c: Corner
      ensures c in WornCorners(ds) <==>
                c in CoverCorners(ds) || (c.col == Side && c.row in WildcardRows(ds) && InTheRow(CoverCorners(ds), c.row) == {})
    {
      match c.row
      case Top =>
      case Mid =>
      case Bottom =>
    }
  }

  // --- More evidence never shrinks the profile --------------------------------------------

  /** Every undismissed defect of a is also in b. */
  ghost predicate ActiveWithin(a: seq<Defect>, b: seq<Defect>) {
    forall d :: d in a && !d.suspect ==> d in b
  }

  lemma SpotsMonotone(cover: set<Corner>, rows: set<Row>, cover': set<Corner>, rows': set<Row>, row: Row)
    requires cover <= cover' && rows <= rows'
    ensures |Spots(cover, rows, row)| <= |Spots(cover', rows', row)|
  {
    var spots, spots' := Spots(cover, rows, row), Spots(cover', rows', row);
    if InTheRow(cover, row) != {} {
      Bags.SubsetSize(spots, spots');
    } else if row in rows {
      assert spots == {Corner(row, Side)};
      assert spots' != {};
    }
  }

  lemma CornerCount(ds: seq<Defect>)
    ensures var cover, rows := CoverCorners(ds), WildcardRows(ds);
            |WornCorners(ds)| == |Spots(cover, rows, Top)| + |Spots(cover, rows, Mid)| + |Spots(cover, rows, Bottom)|
  {
    var cover, rows := CoverCorners(ds), WildcardRows(ds);
    assert Spots(cover, rows, Top) !! Spots(cover, rows, Mid) !! Spots(cover, rows, Bottom);
  }

  /** A wildcard row that a new cover corner absorbs is replaced by it: the number of worn corners never falls. */
  lemma MoreWearMoreCorners(a: seq<Defect>, b: seq<Defect>)
    requires ActiveWithin(a, b)
    ensures |WornCorners(a)| <= |WornCorners(b)|
  {
    CornerCount(a);
    CornerCount(b);
    SpotsMonotone(CoverCorners(a), WildcardRows(a), CoverCorners(b), WildcardRows(b), Top);
    SpotsMonotone(CoverCorners(a), WildcardRows(a), CoverCorners(b), WildcardRows(b), Mid);
    SpotsMonotone(CoverCorners(a), WildcardRows(a), CoverCorners(b), WildcardRows(b), Bottom);
  }

  lemma {:induction false} RatioWithinMax(ds: seq<Defect>, d: Defect)
    requires d in ds && Counted(d)
    ensures EffectiveRatio(d, 0) <= MaxRatio(ds)
  {
    var n := |ds| - 1;
    if ds[n] != d {
      assert ds == ds[..n] + [ds[n]];
      RatioWithinMax(ds[..n], d);
    }
  }

  lemma {:induction false} MoreWearMoreRatio(a: seq<Defect>, b: seq<Defect>)
    requires ActiveWithin(a, b)
    ensures 0 <= MaxRatio(a) <= MaxRatio(b)
    decreases |a| + |b|
  {
    if a != [] {
      var n := |a| - 1;
      MoreWearMoreRatio(a[..n], b);
      if Counted(a[n]) {
        RatioWithinMax(b, a[n]);
      }
    } else if b != [] {
      MoreWearMoreRatio([], b[..|b| - 1]);
    }
  }

  // --- The same spot is not counted twice ---------------------------------------------------

  lemma ProfileOfOneMore(ds: seq<Defect>, d: Defect)
    requires Counted(d)
    ensures CoverCorners(ds + [d]) == WithCorner(CoverCorners(ds), PlaceOf(d))
    ensures WildcardRows(ds + [d]) == WithRow(WildcardRows(ds), PlaceOf(d))
  {
    assert forall e :: e in ds + [d] <==> e in ds || e == d;
  }

  function WithCorner(cover: set<Corner>, place: Place): set<Corner> {
    if place.AtCorner? then cover + {place.corner} else cover
  }

  function WithRow(rows: set<Row>, place: Place): set<Row> {
    if place.InRow? then rows + {place.row} else rows
  }

  function RowOf(place: Place): Row {
    match place
    case AtCorner(c) => c.row
    case InRow(row) => row
  }

  predicate IsNewSpot(cover: set<Corner>, rows: set<Row>, place: Place) {
    match place
    case AtCorner(c) => c !in cover && (InTheRow(cover, c.row) != {} || c.row !in rows)
    case InRow(row) => InTheRow(cover, row) == {} && row !in rows
  }

  lemma SpotsElsewhere(cover: set<Corner>, rows: set<Row>, place: Place, row: Row)
    requires row != RowOf(place)
    ensures Spots(WithCorner(cover, place), WithRow(rows, place), row) == Spots(cover, rows, row)
  {
    assert InTheRow(WithCorner(cover, place), row) == InTheRow(cover, row);
  }

  lemma SpotsWithCorner(cover: set<Corner>, rows: set<Row>, c: Corner)
    ensures |Spots(cover + {c}, rows, c.row)|
         == |Spots(cover, rows, c.row)| + if IsNewSpot(cover, rows, AtCorner(c)) then 1 else 0
  {
    var before := InTheRow(cover, c.row);
    assert c in cover <==> c in before;
    assert InTheRow(cover + {c}, c.row) == before + {c};
    assert Spots(cover + {c}, rows, c.row) == before + {c};
    if before == {} {
      assert before + {c} == {c};
      assert |Spots(cover, rows, c.row)| == if c.row in rows then 1 else 0;
    } else {
      assert Spots(cover, rows, c.row) == before;
    }
  }

  lemma SpotsWithRow(cover: set<Corner>, rows: set<Row>, row: Row)
    ensures |Spots(cover, rows + {row}, row)|
         == |Spots(cover, rows, row)| + if IsNewSpot(cover, rows, InRow(row)) then 1 else 0
  {
    var before := InTheRow(cover, row);
    if before == {} {
      assert |Spots(cover, rows, row)| == if row in rows then 1 else 0;
    } else {
      assert Spots(cover, rows, row) == before;
    }
  }

  lemma SpotsOfOneMore(cover: set<Corner>, rows: set<Row>, place: Place, row: Row)
    ensures |Spots(WithCorner(cover, place), WithRow(rows, place), row)|
         == |Spots(cover, rows, row)| + if row == RowOf(place) && IsNewSpot(cover, rows, place) then 1 else 0
  {
    if row != RowOf(place) {
      SpotsElsewhere(cover, rows, place, row);
    } else if place.AtCorner? {
      SpotsWithCorner(cover, rows, place.corner);
    } else {
      SpotsWithRow(cover, rows, row);
    }
  }

  /** One more detection adds a worn corner exactly when it shows a new cover corner in a row that was not
      known only from the side, or a row in which nothing was worn. */
  lemma OneMoreDetection(ds: seq<Defect>, d: Defect)
    requires Counted(d)
    ensures |WornCorners(ds + [d])|
         == |WornCorners(ds)| + if IsNewSpot(CoverCorners(ds), WildcardRows(ds), PlaceOf(d)) then 1 else 0
  {
    var cover, rows, place := CoverCorners(ds), WildcardRows(ds), PlaceOf(d);
    ProfileOfOneMore(ds, d);
    CornerCount(ds);
    CornerCount(ds + [d]);
    SpotsOfOneMore(cover, rows, place, Top);
    SpotsOfOneMore(cover, rows, place, Mid);
    SpotsOfOneMore(cover, rows, place, Bottom);
  }
}
