/**
 Weighted-boxes fusion (weighted_boxes_fusion_pure in app/ai/wbf_detector.py): greedy
 clustering of the detections of several models, then one averaged box per cluster.
 */
module Fusion {
  import opened Geometry
  import Sorting

  datatype Detection = Detection(box: Rect, score: real, cls: int)

  /** A detection that passed the skip threshold, with the model it came from. */
  datatype Entry = Entry(box: Rect, score: real, cls: int, model: nat)

  datatype Cluster = Cluster(cls: int, boxes: seq<Entry>)

  datatype Fused = Fused(box: Rect, score: real, cls: int)

  // --- Collecting and sorting ---------------------------------------------------------------

  function Collected(models: seq<seq<Detection>>, skip: real): seq<Entry> {
    if models == [] then []
    else
      var n := |models| - 1;
      Collected(models[..n], skip) + FromModel(models[n], n, skip)
  }

  function FromModel(detections: seq<Detection>, model: nat, skip: real): seq<Entry> {
    if detections == [] then []
    else
      var d := detections[|detections| - 1];
      FromModel(detections[..|detections| - 1], model, skip)
      + if d.score < skip then [] else [Entry(d.box, d.score, d.cls, model)]
  }

  method CollectBoxes(models: seq<seq<Detection>>, skip: real) returns (entries: seq<Entry>)
    ensures entries == Collected(models, skip)
  {
    entries := [];
    for m := 0 to |models|
      invariant entries == Collected(models[..m], skip)
    {
      var detections := models[m];
      for k := 0 to |detections|
        invariant entries == Collected(models[..m], skip) + FromModel(detections[..k], m, skip)
      {
        var d := detections[k];
        assert detections[..k + 1][..k] == detections[..k];
        if d.score < skip {
          continue;
        }
        entries := entries + [Entry(d.box, d.score, d.cls, m)];
      }
      assert detections[..|detections|] == detections;
      assert models[..m + 1][..m] == models[..m];
    }
    assert models[..|models|] == models;
  }

  ghost predicate Descending(s: seq<Entry>) {
    forall i, j :: 0 <= i < j < |s| ==> s[i].score >= s[j].score
  }

  const HIGHER := (a: Entry, b: Entry) => a.score > b.score

  /** Python's stable `sorted(..., reverse=True)` on the score. */
  function SortedByScore(s: seq<Entry>): seq<Entry> {
    Sorting.Sorted(s, HIGHER)
  }

  lemma SortedByScoreSorts(s: seq<Entry>)
    ensures multiset(SortedByScore(s)) == multiset(s)
    ensures Descending(SortedByScore(s))
  {
    Sorting.SortedSorts(s, HIGHER);
    OrderedIsDescending(SortedByScore(s));
  }

  lemma OrderedIsDescending(s: seq<Entry>)
    requires Sorting.Ordered(s, HIGHER)
    ensures Descending(s)
  {
    forall i, j | 0 <= i < j < |s|
      ensures s[i].score >= s[j].score
    {
      assert !HIGHER(s[j], s[i]);
    }
  }

  // --- Clustering ------------------------------------------------------------------------------

  predicate Joins(c: Cluster, e: Entry, threshold: real) {
    c.boxes != [] && c.cls == e.cls && CalculateIou(c.boxes[0].box, e.box) >= threshold
  }

  /** The first cluster that the entry joins, or the number of clusters. */
  function FirstMatch(cs: seq<Cluster>, e: Entry, threshold: real): (k: nat)
    ensures k <= |cs|
    ensures forall i :: 0 <= i < k ==> !Joins(cs[i], e, threshold)
    ensures k < |cs| ==> Joins(cs[k], e, threshold)
  {
    if cs == [] || Joins(cs[0], e, threshold) then 0 else 1 + FirstMatch(cs[1..], e, threshold)
  }

  function Place(cs: seq<Cluster>, e: Entry, threshold: real): seq<Cluster> {
    var k := FirstMatch(cs, e, threshold);
    if k < |cs| then cs[k := Cluster(cs[k].cls, cs[k].boxes + [e])] else cs + [Cluster(e.cls, [e])]
  }

  function Clustered(entries: seq<Entry>, threshold: real): seq<Cluster> {
    if entries == [] then []
    else Place(Clustered(entries[..|entries| - 1], threshold), entries[|entries| - 1], threshold)
  }

  method ClusterBoxes(entries: seq<Entry>, threshold: real) returns (clusters: seq<Cluster>)
    ensures clusters == Clustered(entries, threshold)
  {
    clusters := [];
    for i := 0 to |entries|
      invariant clusters == Clustered(entries[..i], threshold)
    {
      var b := entries[i];
      assert entries[..i + 1][..i] == entries[..i];
      var matched := false;
      ghost var before := clusters;
      var k := 0;
      while k < |clusters|
        invariant k <= |clusters| && !matched && clusters == before
        invariant forall j :: 0 <= j < k ==> !Joins(before[j], b, threshold)
      {
        var c := clusters[k];
        if c.boxes != [] && c.cls == b.cls {
          var iou := CalculateIou(c.boxes[0].box, b.box);
          if iou >= threshold {
            clusters := clusters[k := Cluster(c.cls, c.boxes + [b])];
            matched := true;
            break;
          }
        }
        k := k + 1;
      }
      assert k == FirstMatch(before, b, threshold);
      if !matched {
        clusters := clusters + [Cluster(b.cls, [b])];
      }
    }
    assert entries[..|entries|] == entries;
  }

  // --- What the clustering is -------------------------------------------------------------------

  function Members(cs: seq<Cluster>): multiset<Entry> {
    if cs == [] then multiset{} else Members(cs[..|cs| - 1]) + multiset(cs[|cs| - 1].boxes)
  }

  lemma {:induction false} MembersOfGrown(cs: seq<Cluster>, k: nat, e: Entry)
    requires k < |cs|
    ensures Members(cs[k := Cluster(cs[k].cls, cs[k].boxes + [e])]) == Members(cs) + multiset{e}
  {
    var n := |cs| - 1;
    var grown := cs[k := Cluster(cs[k].cls, cs[k].boxes + [e])];
    if k == n {
      assert grown[..n] == cs[..n];
    } else {
      MembersOfGrown(cs[..n], k, e);
      assert grown[..n] == cs[..n][k := Cluster(cs[k].cls, cs[k].boxes + [e])];
    }
  }

  lemma MembersOfPlace(cs: seq<Cluster>, e: Entry, threshold: real)
    ensures Members(Place(cs, e, threshold)) == Members(cs) + multiset{e}
  {
    var k := FirstMatch(cs, e, threshold);
    if k < |cs| {
      MembersOfGrown(cs, k, e);
    } else {
      assert (cs + [Cluster(e.cls, [e])])[..|cs|] == cs;
    }
  }

  /** Every box above the skip threshold lands in exactly one cluster: none is lost, doubled or invented. */
  lemma {:induction false} ClustersPartition(entries: seq<Entry>, threshold: real)
    ensures Members(Clustered(entries, threshold)) == multiset(entries)
  {
    if entries == [] {
    } else {
      var n := |entries| - 1;
      var before := Clustered(entries[..n], threshold);
      ClustersPartition(entries[..n], threshold);
      MembersOfPlace(before, entries[n], threshold);
      OneMoreEntry(entries, n);
    }
  }

  lemma OneMoreEntry(entries: seq<Entry>, n: nat)
    requires n + 1 == |entries|
    ensures multiset(entries) == multiset(entries[..n]) + multiset{entries[n]}
  {
    assert entries == entries[..n] + [entries[n]];
  }

  /** A cluster: its label is the seed's, and every other member overlaps the seed enough and scores no more. */
  ghost predicate IsCluster(c: Cluster, threshold: real) {
    && c.boxes != [] && c.cls == c.boxes[0].cls
    && forall m :: 1 <= m < |c.boxes| ==> Joins(c, c.boxes[m], threshold)
  }

  /** The state of the greedy pass: seeds of one label are far apart, and no member could have joined an earlier cluster. */
  ghost predicate Greedy(cs: seq<Cluster>, threshold: real) {
    && (forall i :: 0 <= i < |cs| ==> IsCluster(cs[i], threshold))
    && (forall i, j, m :: 0 <= i < j < |cs| && 0 <= m < |cs[j].boxes| ==> !Joins(cs[i], cs[j].boxes[m], threshold))
  }

  lemma GrownIsGreedy(cs: seq<Cluster>, k: nat, e: Entry, threshold: real)
    requires Greedy(cs, threshold) && k < |cs| && Joins(cs[k], e, threshold)
    requires forall i :: 0 <= i < k ==> !Joins(cs[i], e, threshold)
    ensures Greedy(cs[k := Cluster(cs[k].cls, cs[k].boxes + [e])], threshold)
  {
    var grown := cs[k := Cluster(cs[k].cls, cs[k].boxes + [e])];
    assert forall i, x :: 0 <= i < |cs| ==> (Joins(grown[i], x, threshold) <==> Joins(cs[i], x, threshold));
    forall i, j, m | 0 <= i < j < |grown| && 0 <= m < |grown[j].boxes|
      ensures !Joins(grown[i], grown[j].boxes[m], threshold)
    {
      if m < |cs[j].boxes| {
        assert grown[j].boxes[m] == cs[j].boxes[m];
      }
    }
  }

  lemma PlaceKeepsGreedy(cs: seq<Cluster>, e: Entry, threshold: real)
    requires Greedy(cs, threshold)
    ensures Greedy(Place(cs, e, threshold), threshold)
  {
    var k := FirstMatch(cs, e, threshold);
    if k < |cs| {
      GrownIsGreedy(cs, k, e, threshold);
    }
  }

  lemma {:induction false} ClusteringIsGreedy(entries: seq<Entry>, threshold: real)
    ensures Greedy(Clustered(entries, threshold), threshold)
  {
    if entries == [] {
    } else {
      var n := |entries| - 1;
      ClusteringIsGreedy(entries[..n], threshold);
      PlaceKeepsGreedy(Clustered(entries[..n], threshold), entries[n], threshold);
    }
  }

  /** Seeds come in the order of their scores, and no member scores above its seed. */
  ghost predicate SeedsLead(cs: seq<Cluster>) {
    && (forall i :: 0 <= i < |cs| ==> cs[i].boxes != [])
    && (forall i, m :: 0 <= i < |cs| && 0 <= m < |cs[i].boxes| ==> cs[i].boxes[m].score <= cs[i].boxes[0].score)
    && (forall i, j :: 0 <= i < j < |cs| ==> cs[i].boxes[0].score >= cs[j].boxes[0].score)
  }

  ghost predicate AllAbove(cs: seq<Cluster>, score: real) {
    forall i, m :: 0 <= i < |cs| && 0 <= m < |cs[i].boxes| ==> cs[i].boxes[m].score >= score
  }

  lemma GrownKeepsLead(cs: seq<Cluster>, k: nat, e: Entry)
    requires SeedsLead(cs) && AllAbove(cs, e.score) && k < |cs|
    ensures var grown := cs[k := Cluster(cs[k].cls, cs[k].boxes + [e])]; SeedsLead(grown) && AllAbove(grown, e.score)
  {
    var grown := cs[k := Cluster(cs[k].cls, cs[k].boxes + [e])];
    assert forall i :: 0 <= i < |cs| ==> grown[i].boxes != [] && grown[i].boxes[0] == cs[i].boxes[0];
    forall i, m | 0 <= i < |grown| && 0 <= m < |grown[i].boxes|
      ensures e.score <= grown[i].boxes[m].score <= grown[i].boxes[0].score
    {
      assert cs[i].boxes[0].score >= e.score;
      if m < |cs[i].boxes| {
        assert grown[i].boxes[m] == cs[i].boxes[m];
      }
    }
  }

  lemma PlaceKeepsLead(cs: seq<Cluster>, e: Entry, threshold: real)
    requires SeedsLead(cs) && AllAbove(cs, e.score)
    ensures SeedsLead(Place(cs, e, threshold)) && AllAbove(Place(cs, e, threshold), e.score)
  {
    var k := FirstMatch(cs, e, threshold);
    if k < |cs| {
      GrownKeepsLead(cs, k, e);
    } else {
      assert forall i :: 0 <= i < |cs| ==> cs[i].boxes[0].score >= e.score;
    }
  }

  lemma {:induction false} BestSeedsFirst(entries: seq<Entry>, threshold: real)
    requires Descending(entries)
    ensures SeedsLead(Clustered(entries, threshold))
    ensures entries != [] ==> AllAbove(Clustered(entries, threshold), entries[|entries| - 1].score)
  {
    if entries == [] {
    } else {
      var n := |entries| - 1;
      BestSeedsFirst(entries[..n], threshold);
      PlaceKeepsLead(Clustered(entries[..n], threshold), entries[n], threshold);
    }
  }

  // --- Fusing --------------------------------------------------------------------------------------

  function WeightOf(weights: seq<real>, model: nat): real {
    if model < |weights| then weights[model] else 1.0
  }

  predicate Positive(weights: seq<real>) {
    forall i :: 0 <= i < |weights| ==> weights[i] > 0.0
  }

  function TotalWeight(boxes: seq<Entry>, weights: seq<real>): real {
    if boxes == [] then 0.0
    else TotalWeight(boxes[..|boxes| - 1], weights) + WeightOf(weights, boxes[|boxes| - 1].model)
  }

  function WeightedSum(boxes: seq<Entry>, weights: seq<real>, coordinate: Rect -> real): real {
    if boxes == [] then 0.0
    else
      var b := boxes[|boxes| - 1];
      WeightedSum(boxes[..|boxes| - 1], weights, coordinate) + coordinate(b.box) * WeightOf(weights, b.model)
  }

  const X1 := (r: Rect) => r.x1
  const Y1 := (r: Rect) => r.y1
  const X2 := (r: Rect) => r.x2
  const Y2 := (r: Rect) => r.y2

  lemma {:induction false} TotalWeightPositive(boxes: seq<Entry>, weights: seq<real>)
    requires Positive(weights)
    ensures TotalWeight(boxes, weights) >= 0.0
    ensures boxes != [] ==> TotalWeight(boxes, weights) > 0.0
  {
    if boxes == [] {
    } else {
      TotalWeightPositive(boxes[..|boxes| - 1], weights);
    }
  }

  function Average(boxes: seq<Entry>, weights: seq<real>, coordinate: Rect -> real): real
    requires TotalWeight(boxes, weights) != 0.0
  {
    WeightedSum(boxes, weights, coordinate) / TotalWeight(boxes, weights)
  }

  function AverageBox(boxes: seq<Entry>, weights: seq<real>): Rect
    requires TotalWeight(boxes, weights) != 0.0
  {
    Rect(Average(boxes, weights, X1), Average(boxes, weights, Y1), Average(boxes, weights, X2), Average(boxes, weights, Y2))
  }

  method WeightedBox(boxes: seq<Entry>, weights: seq<real>) returns (box: Rect)
    requires TotalWeight(boxes, weights) != 0.0
    ensures box == AverageBox(boxes, weights)
  {
    var total, x1, y1, x2, y2 := 0.0, 0.0, 0.0, 0.0, 0.0;
    for i := 0 to |boxes|
      invariant total == TotalWeight(boxes[..i], weights)
      invariant x1 == WeightedSum(boxes[..i], weights, X1)
      invariant y1 == WeightedSum(boxes[..i], weights, Y1)
      invariant x2 == WeightedSum(boxes[..i], weights, X2)
      invariant y2 == WeightedSum(boxes[..i], weights, Y2)
    {
      var b := boxes[i];
      assert boxes[..i + 1][..i] == boxes[..i];
      var w := WeightOf(weights, b.model);
      total := total + w;
      x1, y1, x2, y2 := x1 + b.box.x1 * w, y1 + b.box.y1 * w, x2 + b.box.x2 * w, y2 + b.box.y2 * w;
    }
    assert boxes[..|boxes|] == boxes;
    box := Rect(x1 / total, y1 / total, x2 / total, y2 / total);
  }

  method BestScore(boxes: seq<Entry>) returns (best: real)
    requires boxes != []
    ensures IsBestScore(best, boxes)
  {
    best := boxes[0].score;
    for i := 0 to |boxes|
      invariant exists m :: 0 <= m < |boxes| && best == boxes[m].score
      invariant forall m :: 0 <= m < i ==> boxes[m].score <= best
    {
      best := if boxes[i].score > best then boxes[i].score else best;
    }
  }

  ghost predicate IsBestScore(best: real, boxes: seq<Entry>) {
    && (exists m :: 0 <= m < |boxes| && best == boxes[m].score)
    && (forall m :: 0 <= m < |boxes| ==> boxes[m].score <= best)
  }

  ghost predicate IsFused(f: Fused, c: Cluster, weights: seq<real>) {
    && TotalWeight(c.boxes, weights) > 0.0
    && f.box == AverageBox(c.boxes, weights)
    && IsBestScore(f.score, c.boxes)
    && f.cls == c.cls
  }

  /** The whole fusion. */
  method WeightedBoxesFusion(models: seq<seq<Detection>>, weights: seq<real>, threshold: real, skip: real)
    returns (fused: seq<Fused>)
    requires Positive(weights)
    ensures IsFusionOf(fused, ClustersOf(models, threshold, skip), weights)
  {
    var entries := CollectBoxes(models, skip);
    if entries == [] {
      fused := [];
      return;
    }
    var clusters := ClusterBoxes(SortedByScore(entries), threshold);
    ClusteringIsGreedy(SortedByScore(entries), threshold);
    fused := FuseClusters(clusters, weights);
  }

  method FuseClusters(clusters: seq<Cluster>, weights: seq<real>) returns (fused: seq<Fused>)
    requires Positive(weights) && forall i :: 0 <= i < |clusters| ==> clusters[i].boxes != []
    ensures IsFusionOf(fused, clusters, weights)
  {
    fused := [];
    for i := 0 to |clusters|
      invariant |fused| == i && forall j :: 0 <= j < i ==> IsFused(fused[j], clusters[j], weights)
    {
      var c := clusters[i];
      TotalWeightPositive(c.boxes, weights);
      var box := WeightedBox(c.boxes, weights);
      var best := BestScore(c.boxes);
      fused := fused + [Fused(box, best, c.cls)];
    }
  }

  function ClustersOf(models: seq<seq<Detection>>, threshold: real, skip: real): seq<Cluster> {
    Clustered(SortedByScore(Collected(models, skip)), threshold)
  }

  ghost predicate IsFusionOf(fused: seq<Fused>, cs: seq<Cluster>, weights: seq<real>) {
    |fused| == |cs| && forall i :: 0 <= i < |cs| ==> IsFused(fused[i], cs[i], weights)
  }

  // --- What the fused boxes are ----------------------------------------------------------------------

  lemma AboveWithOneMore(lo: real, total: real, sum: real, x: real, w: real)
    requires lo * total <= sum && lo <= x && w > 0.0
    ensures lo * (total + w) <= sum + x * w
  {
    assert lo * w <= x * w;
  }

  lemma BelowWithOneMore(hi: real, total: real, sum: real, x: real, w: real)
    requires sum <= hi * total && x <= hi && w > 0.0
    ensures sum + x * w <= hi * (total + w)
  {
    assert x * w <= hi * w;
  }

  lemma {:induction false} SumAbove(boxes: seq<Entry>, weights: seq<real>, coordinate: Rect -> real, lo: real)
    requires Positive(weights)
    requires forall m :: 0 <= m < |boxes| ==> lo <= coordinate(boxes[m].box)
    ensures lo * TotalWeight(boxes, weights) <= WeightedSum(boxes, weights, coordinate)
  {
    if boxes == [] {
    } else {
      var n := |boxes| - 1;
      SumAbove(boxes[..n], weights, coordinate, lo);
      var w, x := WeightOf(weights, boxes[n].model), coordinate(boxes[n].box);
      AboveWithOneMore(lo, TotalWeight(boxes[..n], weights), WeightedSum(boxes[..n], weights, coordinate), x, w);
    }
  }

  lemma {:induction false} SumBelow(boxes: seq<Entry>, weights: seq<real>, coordinate: Rect -> real, hi: real)
    requires Positive(weights)
    requires forall m :: 0 <= m < |boxes| ==> coordinate(boxes[m].box) <= hi
    ensures WeightedSum(boxes, weights, coordinate) <= hi * TotalWeight(boxes, weights)
  {
    if boxes == [] {
    } else {
      var n := |boxes| - 1;
      SumBelow(boxes[..n], weights, coordinate, hi);
      var w, x := WeightOf(weights, boxes[n].model), coordinate(boxes[n].box);
      BelowWithOneMore(hi, TotalWeight(boxes[..n], weights), WeightedSum(boxes[..n], weights, coordinate), x, w);
    }
  }

  lemma QuotientAbove(n: real, d: real, lo: real)
    requires d > 0.0 && lo * d <= n
    ensures lo <= n / d
  {
    assert n / d * d == n;
  }

  lemma QuotientBelow(n: real, d: real, hi: real)
    requires d > 0.0 && n <= hi * d
    ensures n / d <= hi
  {
    assert n / d * d == n;
  }

  /** A fused coordinate lies between the least and the greatest one of its members. */
  lemma AverageInHull(boxes: seq<Entry>, weights: seq<real>, coordinate: Rect -> real, lo: real, hi: real)
    requires Positive(weights) && boxes != []
    requires forall m :: 0 <= m < |boxes| ==> lo <= coordinate(boxes[m].box) <= hi
    ensures TotalWeight(boxes, weights) > 0.0
    ensures lo <= Average(boxes, weights, coordinate) <= hi
  {
    TotalWeightPositive(boxes, weights);
    assert lo <= Average(boxes, weights, coordinate) by {
      SumAbove(boxes, weights, coordinate, lo);
      QuotientAbove(WeightedSum(boxes, weights, coordinate), TotalWeight(boxes, weights), lo);
    }
    assert Average(boxes, weights, coordinate) <= hi by {
      SumBelow(boxes, weights, coordinate, hi);
      QuotientBelow(WeightedSum(boxes, weights, coordinate), TotalWeight(boxes, weights), hi);
    }
  }

  lemma {:induction false} SumOrdered(boxes: seq<Entry>, weights: seq<real>, low: Rect -> real, high: Rect -> real)
    requires Positive(weights)
    requires forall m :: 0 <= m < |boxes| ==> low(boxes[m].box) <= high(boxes[m].box)
    ensures WeightedSum(boxes, weights, low) <= WeightedSum(boxes, weights, high)
  {
    if boxes == [] {
    } else {
      var n := |boxes| - 1;
      SumOrdered(boxes[..n], weights, low, high);
      var w := WeightOf(weights, boxes[n].model);
      assert low(boxes[n].box) * w <= high(boxes[n].box) * w;
    }
  }

  lemma QuotientMonotone(a: real, b: real, d: real)
    requires d > 0.0 && a <= b
    ensures a / d <= b / d
  {
  }

  ghost predicate InUnitSquare(r: Rect) {
    0.0 <= r.x1 <= r.x2 <= 1.0 && 0.0 <= r.y1 <= r.y2 <= 1.0
  }

  /** Proper boxes inside the image fuse to a proper box inside the image. */
  lemma FusedBoxInImage(f: Fused, c: Cluster, weights: seq<real>)
    requires Positive(weights) && c.boxes != [] && IsFused(f, c, weights)
    requires forall m :: 0 <= m < |c.boxes| ==> InUnitSquare(c.boxes[m].box)
    ensures InUnitSquare(f.box)
  {
    AverageInHull(c.boxes, weights, X1, 0.0, 1.0);
    AverageInHull(c.boxes, weights, Y1, 0.0, 1.0);
    AverageInHull(c.boxes, weights, X2, 0.0, 1.0);
    AverageInHull(c.boxes, weights, Y2, 0.0, 1.0);
    SumOrdered(c.boxes, weights, X1, X2);
    SumOrdered(c.boxes, weights, Y1, Y2);
    var d := TotalWeight(c.boxes, weights);
    QuotientMonotone(WeightedSum(c.boxes, weights, X1), WeightedSum(c.boxes, weights, X2), d);
    QuotientMonotone(WeightedSum(c.boxes, weights, Y1), WeightedSum(c.boxes, weights, Y2), d);
  }

  /** Each fused score is its seed's, and the fused boxes come in the order of their scores. */
  lemma FusedScoresDescend(models: seq<seq<Detection>>, weights: seq<real>, threshold: real, skip: real, fused: seq<Fused>)
    requires IsFusionOf(fused, ClustersOf(models, threshold, skip), weights)
    ensures forall i :: 0 <= i < |fused| ==>
              var c := ClustersOf(models, threshold, skip)[i]; c.boxes != [] && fused[i].score == c.boxes[0].score
    ensures forall i, j :: 0 <= i < j < |fused| ==> fused[i].score >= fused[j].score
  {
    var sorted := SortedByScore(Collected(models, skip));
    SortedByScoreSorts(Collected(models, skip));
    BestSeedsFirst(sorted, threshold);
  }

  /** The clusters hold exactly the collected detections, seeds of one label lie below the threshold from each
      other, and every other member overlaps its seed and no earlier one enough. */
  lemma FusionPartitions(models: seq<seq<Detection>>, threshold: real, skip: real)
    ensures Members(ClustersOf(models, threshold, skip)) == multiset(Collected(models, skip))
    ensures Greedy(ClustersOf(models, threshold, skip), threshold)
  {
    var sorted := SortedByScore(Collected(models, skip));
    SortedByScoreSorts(Collected(models, skip));
    ClustersPartition(sorted, threshold);
    ClusteringIsGreedy(sorted, threshold);
  }

  // --- The whole fusion stays in the image --------------------------------------------------------------

  ghost predicate AllInImage(models: seq<seq<Detection>>) {
    forall m, k :: 0 <= m < |models| && 0 <= k < |models[m]| ==> InUnitSquare(models[m][k].box)
  }

  ghost predicate EntriesInImage(entries: seq<Entry>) {
    forall e :: e in entries ==> InUnitSquare(e.box)
  }

  lemma {:induction false} ModelInImage(detections: seq<Detection>, model: nat, skip: real)
    requires forall k :: 0 <= k < |detections| ==> InUnitSquare(detections[k].box)
    ensures EntriesInImage(FromModel(detections, model, skip))
  {
    if detections == [] {
    } else {
      ModelInImage(detections[..|detections| - 1], model, skip);
    }
  }

  lemma {:induction false} CollectedInImage(models: seq<seq<Detection>>, skip: real)
    requires AllInImage(models)
    ensures EntriesInImage(Collected(models, skip))
  {
    if models == [] {
    } else {
      var n := |models| - 1;
      CollectedInImage(models[..n], skip);
      ModelInImage(models[n], n, skip);
    }
  }

  lemma {:induction false} MemberOfAll(cs: seq<Cluster>, i: nat, m: nat)
    requires i < |cs| && m < |cs[i].boxes|
    ensures cs[i].boxes[m] in Members(cs)
    decreases |cs|
  {
    var n := |cs| - 1;
    if i == n {
      assert cs[i].boxes[m] in multiset(cs[n].boxes);
    } else {
      MemberOfAll(cs[..n], i, m);
    }
  }

  /** Proper boxes inside the image go in, proper boxes inside the image come out, whatever the models and thresholds. */
  lemma FusionStaysInImage(models: seq<seq<Detection>>, weights: seq<real>, threshold: real, skip: real, fused: seq<Fused>)
    requires Positive(weights) && AllInImage(models) && IsFusionOf(fused, ClustersOf(models, threshold, skip), weights)
    ensures forall i :: 0 <= i < |fused| ==> InUnitSquare(fused[i].box)
  {
    var cs := ClustersOf(models, threshold, skip);
    FusionPartitions(models, threshold, skip);
    CollectedInImage(models, skip);
    forall i | 0 <= i < |fused|
      ensures InUnitSquare(fused[i].box)
    {
      assert IsCluster(cs[i], threshold) && IsFused(fused[i], cs[i], weights);
      forall m | 0 <= m < |cs[i].boxes|
        ensures InUnitSquare(cs[i].boxes[m].box)
      {
        MemberOfAll(cs, i, m);
        assert cs[i].boxes[m] in Collected(models, skip);
      }
      FusedBoxInImage(fused[i], cs[i], weights);
    }
  }
}
