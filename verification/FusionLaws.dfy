/** The fusion in terms of the detections it is given. */
module FusionLaws {
  import opened Geometry
  import opened Fusion

  // --- Which detections are collected --------------------------------------------------------------

  /** How often a model detects exactly this. */
  function Times(models: seq<seq<Detection>>, e: Entry): nat {
    if e.model < |models| then multiset(models[e.model])[Detection(e.box, e.score, e.cls)] else 0
  }

  lemma {:induction false} FromModelTimes(detections: seq<Detection>, model: nat, skip: real, e: Entry)
    ensures multiset(FromModel(detections, model, skip))[e]
         == if e.model == model && e.score >= skip then multiset(detections)[Detection(e.box, e.score, e.cls)] else 0
  {
    if detections == [] {
    } else {
      var n := |detections| - 1;
      FromModelTimes(detections[..n], model, skip, e);
      assert detections == detections[..n] + [detections[n]];
    }
  }

  /** A detection is collected as often as its model reports it, if its score reaches the threshold, and not at all
      otherwise. */
  lemma {:induction false} CollectedTimes(models: seq<seq<Detection>>, skip: real, e: Entry)
    ensures multiset(Collected(models, skip))[e] == if e.score >= skip then Times(models, e) else 0
  {
    if models == [] {
    } else {
      var n := |models| - 1;
      CollectedTimes(models[..n], skip, e);
      FromModelTimes(models[n], n, skip, e);
    }
  }

  lemma CollectedIsDetected(models: seq<seq<Detection>>, skip: real, e: Entry)
    requires e in Collected(models, skip)
    ensures e.score >= skip && e.model < |models| && Detection(e.box, e.score, e.cls) in models[e.model]
  {
    CollectedTimes(models, skip, e);
    assert e in multiset(Collected(models, skip));
  }

  // --- Clusters of detections ---------------------------------------------------------------------------

  /** Every detection at or above the threshold lies in exactly one cluster, once for each time it was reported, and no
      other does. */
  lemma DetectionsArePartitioned(models: seq<seq<Detection>>, threshold: real, skip: real, e: Entry)
    ensures Members(ClustersOf(models, threshold, skip))[e] == if e.score >= skip then Times(models, e) else 0
  {
    FusionPartitions(models, threshold, skip);
    CollectedTimes(models, skip, e);
  }

  /** A member has the label of its seed and overlaps it by the threshold, and does so with no seed before it. */
  lemma ClustersByOverlap(models: seq<seq<Detection>>, threshold: real, skip: real)
    ensures var cs := ClustersOf(models, threshold, skip);
            && (forall i :: 0 <= i < |cs| ==> cs[i].boxes != [] && cs[i].cls == cs[i].boxes[0].cls)
            && (forall i, m :: 0 <= i < |cs| && 1 <= m < |cs[i].boxes| ==>
                  cs[i].boxes[m].cls == cs[i].boxes[0].cls && CalculateIou(cs[i].boxes[0].box, cs[i].boxes[m].box) >= threshold)
            && (forall i, j, m :: 0 <= i < j < |cs| && 0 <= m < |cs[j].boxes| ==>
                  cs[j].boxes[m].cls != cs[i].boxes[0].cls || CalculateIou(cs[i].boxes[0].box, cs[j].boxes[m].box) < threshold)
  {
    FusionPartitions(models, threshold, skip);
    GreedyByOverlap(ClustersOf(models, threshold, skip), threshold);
  }

  lemma GreedyByOverlap(cs: seq<Cluster>, threshold: real)
    requires Greedy(cs, threshold)
    ensures forall i :: 0 <= i < |cs| ==> cs[i].boxes != [] && cs[i].cls == cs[i].boxes[0].cls
    ensures forall i, m :: 0 <= i < |cs| && 1 <= m < |cs[i].boxes| ==>
              cs[i].boxes[m].cls == cs[i].boxes[0].cls && CalculateIou(cs[i].boxes[0].box, cs[i].boxes[m].box) >= threshold
    ensures forall i, j, m :: 0 <= i < j < |cs| && 0 <= m < |cs[j].boxes| ==>
              cs[j].boxes[m].cls != cs[i].boxes[0].cls || CalculateIou(cs[i].boxes[0].box, cs[j].boxes[m].box) < threshold
  {
    assert forall i :: 0 <= i < |cs| ==> IsCluster(cs[i], threshold);
    forall i, m | 0 <= i < |cs| && 1 <= m < |cs[i].boxes|
      ensures cs[i].boxes[m].cls == cs[i].boxes[0].cls && CalculateIou(cs[i].boxes[0].box, cs[i].boxes[m].box) >= threshold
    {
      assert Joins(cs[i], cs[i].boxes[m], threshold);
    }
    forall i, j, m | 0 <= i < j < |cs| && 0 <= m < |cs[j].boxes|
      ensures cs[j].boxes[m].cls != cs[i].boxes[0].cls || CalculateIou(cs[i].boxes[0].box, cs[j].boxes[m].box) < threshold
    {
      assert !Joins(cs[i], cs[j].boxes[m], threshold);
    }
  }

  /** Every fused box has the score and the label of a detection at or above the threshold. */
  lemma FusedScoresAreDetected(models: seq<seq<Detection>>, weights: seq<real>, threshold: real, skip: real, fused: seq<Fused>, i: nat)
    requires IsFusionOf(fused, ClustersOf(models, threshold, skip), weights) && i < |fused|
    ensures fused[i].score >= skip
    ensures exists m, k :: 0 <= m < |models| && 0 <= k < |models[m]|
                           && models[m][k].score == fused[i].score && models[m][k].cls == fused[i].cls
  {
    var cs := ClustersOf(models, threshold, skip);
    FusionPartitions(models, threshold, skip);
    FusedScoresDescend(models, weights, threshold, skip, fused);
    var seed := cs[i].boxes[0];
    assert IsCluster(cs[i], threshold) && IsFused(fused[i], cs[i], weights);
    MemberOfAll(cs, i, 0);
    assert seed in multiset(Collected(models, skip));
    CollectedIsDetected(models, skip, seed);
    var k :| 0 <= k < |models[seed.model]| && models[seed.model][k] == Detection(seed.box, seed.score, seed.cls);
    assert models[seed.model][k].score == fused[i].score;
  }

  // --- Where the average lies ------------------------------------------------------------------------------

  /** The weight of a model, 1 for one without a weight. */
  function Weight(weights: seq<real>, model: nat): real {
    if model >= |weights| then 1.0 else weights[model]
  }

  lemma OneMoreWeight(boxes: seq<Entry>, e: Entry, weights: seq<real>, coordinate: Rect -> real)
    ensures TotalWeight(boxes + [e], weights) == TotalWeight(boxes, weights) + Weight(weights, e.model)
    ensures WeightedSum(boxes + [e], weights, coordinate)
            == WeightedSum(boxes, weights, coordinate) + coordinate(e.box) * Weight(weights, e.model)
  {
    assert (boxes + [e])[..|boxes|] == boxes;
  }

  /** A box alone is its own average. */
  lemma AverageOfOne(e: Entry, weights: seq<real>, coordinate: Rect -> real)
    requires Weight(weights, e.model) > 0.0
    ensures TotalWeight([e], weights) == Weight(weights, e.model)
    ensures Average([e], weights, coordinate) == coordinate(e.box)
  {
    OneMoreWeight([], e, weights, coordinate);
    assert [] + [e] == [e];
    QuotientOfProduct(coordinate(e.box), Weight(weights, e.model));
  }

  lemma QuotientOfProduct(x: real, w: real)
    requires w > 0.0
    ensures x * w / w == x
  {
  }

  lemma TimesQuotient(x: real, w: real)
    requires w > 0.0
    ensures x / w * w == x
  {
  }

  /** One more box pulls the average towards itself, with the weight of its model against those of the others. */
  lemma AverageIsALever(boxes: seq<Entry>, e: Entry, weights: seq<real>, coordinate: Rect -> real)
    requires Positive(weights) && boxes != []
    ensures TotalWeight(boxes, weights) > 0.0 && TotalWeight(boxes + [e], weights) > 0.0
    ensures var before, after := Average(boxes, weights, coordinate), Average(boxes + [e], weights, coordinate);
            (after - before) * TotalWeight(boxes, weights) == (coordinate(e.box) - after) * Weight(weights, e.model)
  {
    TotalWeightPositive(boxes, weights);
    TotalWeightPositive(boxes + [e], weights);
    OneMoreWeight(boxes, e, weights, coordinate);
    var before, after := Average(boxes, weights, coordinate), Average(boxes + [e], weights, coordinate);
    TimesQuotient(WeightedSum(boxes, weights, coordinate), TotalWeight(boxes, weights));
    TimesQuotient(WeightedSum(boxes + [e], weights, coordinate), TotalWeight(boxes + [e], weights));
    LeverArms(before, after, TotalWeight(boxes, weights), coordinate(e.box), Weight(weights, e.model));
  }

  lemma LeverArms(before: real, after: real, total: real, x: real, w: real)
    requires before * total + x * w == after * (total + w)
    ensures (after - before) * total == (x - after) * w
  {
  }

  /** x divides the way from a to b so that the parts are in the ratio of the weights at the other ends. */
  predicate Divides(x: real, a: real, b: real, weightA: real, weightB: real) {
    (x - a) * weightA == (b - x) * weightB
  }

  lemma Between(a: Entry, b: Entry, weights: seq<real>, coordinate: Rect -> real)
    requires Positive(weights)
    ensures TotalWeight([a] + [b], weights) > 0.0
    ensures Divides(Average([a] + [b], weights, coordinate), coordinate(a.box), coordinate(b.box),
                    Weight(weights, a.model), Weight(weights, b.model))
  {
    AverageOfOne(a, weights, coordinate);
    AverageIsALever([a], b, weights, coordinate);
  }

  /** The fused box of two detections lies between them, at each corner in the ratio of their models' weights. */
  lemma FusedBetweenTwo(a: Entry, b: Entry, weights: seq<real>)
    requires Positive(weights)
    ensures TotalWeight([a] + [b], weights) > 0.0
    ensures var f, u, w := AverageBox([a] + [b], weights), Weight(weights, a.model), Weight(weights, b.model);
            && Divides(f.x1, a.box.x1, b.box.x1, u, w) && Divides(f.y1, a.box.y1, b.box.y1, u, w)
            && Divides(f.x2, a.box.x2, b.box.x2, u, w) && Divides(f.y2, a.box.y2, b.box.y2, u, w)
  {
    Between(a, b, weights, X1);
    Between(a, b, weights, Y1);
    Between(a, b, weights, X2);
    Between(a, b, weights, Y2);
  }
}
