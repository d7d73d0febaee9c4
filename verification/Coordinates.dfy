/** The overlay data of a result (build_defect_coordinates in app/ai/langgraph_wrapper.py): boxes grouped by shot. */
module Coordinates {
  import opened Options
  import opened Defects
  import Sorting

  datatype Shot = Shot(index: int, url: Option<string>, boxed: seq<Defect>)

  datatype Overlay = Drawn(shots: seq<Shot>) | IndexError

  /** A missing index reads as the first shot. */
  function ShotOf(d: Defect): int {
    d.imageIndex.GetOr(0)
  }

  /** Python's urls[index] where index < len(urls): a negative index counts from the end, and raises before the start. */
  predicate Addressable(index: int, urls: seq<string>) {
    index >= -|urls|
  }

  function UrlOf(index: int, urls: seq<string>): Option<string>
    requires Addressable(index, urls)
  {
    if index >= |urls| then None else Some(urls[if index < 0 then index + |urls| else index])
  }

  /** The defects with a box on one shot, in their order. */
  function BoxedOn(ds: seq<Defect>, index: int): seq<Defect> {
    if ds == [] then []
    else
      var d := ds[|ds| - 1];
      BoxedOn(ds[..|ds| - 1], index) + if d.bbox.Some? && ShotOf(d) == index then [d] else []
  }

  /** One by one: a defect is drawn on its own shot if it has a box, and on the first shot if it names none. */
  lemma BoxOfOne(d: Defect, index: int)
    ensures BoxedOn([d], index)
            == if d.bbox.Some? && (d.imageIndex == Some(index) || (d.imageIndex == None && index == 0)) then [d] else []
  {
    assert [d][..0] == [];
  }

  /** The order of the defects is kept, however the list is divided. */
  lemma {:induction false} BoxesInOrder(a: seq<Defect>, b: seq<Defect>, index: int)
    ensures BoxedOn(a + b, index) == BoxedOn(a, index) + BoxedOn(b, index)
  {
    if b == [] {
      assert a + b == a;
    } else {
      var n := |b| - 1;
      assert (a + b)[..|a + b| - 1] == a + b[..n];
      BoxesInOrder(a, b[..n], index);
    }
  }

  predicate HasBox(ds: seq<Defect>, index: int) {
    exists d :: d in ds && d.bbox.Some? && ShotOf(d) == index
  }

  /** The dictionary after some of the defects. */
  ghost predicate Grouped(ds: seq<Defect>, urls: seq<string>, grouped: map<int, Shot>) {
    && (forall k :: k in grouped <==> HasBox(ds, k))
    && (forall k :: k in grouped ==> Addressable(k, urls) && grouped[k] == Shot(k, UrlOf(k, urls), BoxedOn(ds, k)))
  }

  lemma OneMoreBox(ds: seq<Defect>, d: Defect)
    ensures forall k :: BoxedOn(ds + [d], k) == BoxedOn(ds, k) + if d.bbox.Some? && ShotOf(d) == k then [d] else []
    ensures forall k :: HasBox(ds + [d], k) <==> HasBox(ds, k) || (d.bbox.Some? && ShotOf(d) == k)
  {
    assert (ds + [d])[..|ds|] == ds;
    forall k
      ensures HasBox(ds + [d], k) <==> HasBox(ds, k) || (d.bbox.Some? && ShotOf(d) == k)
    {
      assert forall x :: x in ds ==> x in ds + [d];
      assert d in ds + [d];
    }
  }

  lemma {:induction false} NoBoxNoneDrawn(ds: seq<Defect>, k: int)
    ensures BoxedOn(ds, k) == [] <==> !HasBox(ds, k)
  {
    if ds == [] {
    } else {
      var n := |ds| - 1;
      NoBoxNoneDrawn(ds[..n], k);
      OneMoreBox(ds[..n], ds[n]);
      assert ds == ds[..n] + [ds[n]];
    }
  }

  /** The keys of a dictionary in the order of their insertion. */
  ghost predicate KeysOf(grouped: map<int, Shot>, order: seq<int>) {
    && (forall i, j :: 0 <= i < j < |order| ==> order[i] != order[j])
    && (forall k :: k in order <==> k in grouped)
  }

  predicate AllAddressable(ds: seq<Defect>, urls: seq<string>) {
    forall d :: d in ds && d.bbox.Some? ==> Addressable(ShotOf(d), urls)
  }

  /** What the loop has done with some of the defects. */
  ghost predicate Filled(ds: seq<Defect>, urls: seq<string>, grouped: map<int, Shot>, order: seq<int>) {
    Grouped(ds, urls, grouped) && KeysOf(grouped, order) && AllAddressable(ds, urls)
  }

  /** A defect without a box leaves the dictionary alone. */
  lemma Unboxed(ds: seq<Defect>, d: Defect, urls: seq<string>, grouped: map<int, Shot>, order: seq<int>)
    requires Filled(ds, urls, grouped, order) && d.bbox.None?
    ensures Filled(ds + [d], urls, grouped, order)
  {
    OneMoreBox(ds, d);
  }

  /** The entry of its shot, new if it has none yet. */
  function EntryFor(grouped: map<int, Shot>, index: int, urls: seq<string>): Shot
    requires Addressable(index, urls)
  {
    if index in grouped then grouped[index] else Shot(index, UrlOf(index, urls), [])
  }

  function WithBox(grouped: map<int, Shot>, d: Defect, urls: seq<string>): map<int, Shot>
    requires Addressable(ShotOf(d), urls)
  {
    var entry := EntryFor(grouped, ShotOf(d), urls);
    grouped[ShotOf(d) := entry.(boxed := entry.boxed + [d])]
  }

  function WithKey(grouped: map<int, Shot>, order: seq<int>, k: int): seq<int> {
    if k in grouped then order else order + [k]
  }

  lemma BoxJoins(ds: seq<Defect>, d: Defect, urls: seq<string>, grouped: map<int, Shot>)
    requires Grouped(ds, urls, grouped) && d.bbox.Some? && Addressable(ShotOf(d), urls)
    ensures Grouped(ds + [d], urls, WithBox(grouped, d, urls))
  {
    OneMoreBox(ds, d);
    NoBoxNoneDrawn(ds, ShotOf(d));
  }

  lemma KeyJoins(grouped: map<int, Shot>, order: seq<int>, k: int, shot: Shot)
    requires KeysOf(grouped, order)
    ensures KeysOf(grouped[k := shot], WithKey(grouped, order, k))
  {
    var all := order + [k];
    assert forall i :: 0 <= i < |order| ==> order[i] in order && all[i] == order[i];
    assert all[|order|] == k;
  }

  lemma Boxed(ds: seq<Defect>, d: Defect, urls: seq<string>, grouped: map<int, Shot>, order: seq<int>)
    requires Filled(ds, urls, grouped, order) && d.bbox.Some? && Addressable(ShotOf(d), urls)
    ensures Filled(ds + [d], urls, WithBox(grouped, d, urls), WithKey(grouped, order, ShotOf(d)))
  {
    BoxJoins(ds, d, urls, grouped);
    KeyJoins(grouped, order, ShotOf(d), WithBox(grouped, d, urls)[ShotOf(d)]);
    assert WithBox(grouped, d, urls) == grouped[ShotOf(d) := WithBox(grouped, d, urls)[ShotOf(d)]];
  }

  method Group(ds: seq<Defect>, urls: seq<string>) returns (ok: bool, grouped: map<int, Shot>, order: seq<int>)
    ensures ok <==> forall d :: d in ds && d.bbox.Some? ==> Addressable(ShotOf(d), urls)
    ensures ok ==> Grouped(ds, urls, grouped) && KeysOf(grouped, order)
  {
    grouped, order := map[], [];
    for i := 0 to |ds|
      invariant Filled(ds[..i], urls, grouped, order)
    {
      var d := ds[i];
      assert ds[..i + 1] == ds[..i] + [d];
      if d.bbox.None? {
        Unboxed(ds[..i], d, urls, grouped, order);
        continue;
      }
      var index := ShotOf(d);
      if !(index >= -|urls|) {
        return false, grouped, order;
      }
      Boxed(ds[..i], d, urls, grouped, order);
      ghost var next := WithBox(grouped, d, urls);
      if index !in grouped {
        grouped := grouped[index := Shot(index, UrlOf(index, urls), [])];
        order := order + [index];
      }
      grouped := grouped[index := grouped[index].(boxed := grouped[index].boxed + [d])];
      assert grouped == next;
    }
    assert ds[..|ds|] == ds;
    ok := true;
  }

  predicate Ascending(keys: seq<int>) {
    forall i, j :: 0 <= i < j < |keys| ==> keys[i] < keys[j]
  }

  const SMALLER := (a: int, b: int) => a < b

  lemma InsertedKeeps(sorted: seq<int>, k: int)
    requires Ascending(sorted) && k !in sorted
    ensures Ascending(Sorting.Inserted(sorted, k, SMALLER))
    ensures forall x :: x in Sorting.Inserted(sorted, k, SMALLER) <==> x in sorted || x == k
  {
    var t := Sorting.Inserted(sorted, k, SMALLER);
    Sorting.InsertedOrdered(sorted, k, SMALLER);
    Sorting.InsertedHas(sorted, k, SMALLER);
    Sorting.InsertedMembers(sorted, k, SMALLER);
    Sorting.DistinctInserted(sorted, k, SMALLER);
    forall i, j | 0 <= i < j < |t|
      ensures t[i] < t[j]
    {
      assert !SMALLER(t[j], t[i]) && t[i] != t[j];
    }
  }

  /** sorted(grouped.keys()) */
  method SortedKeys(keys: seq<int>) returns (sorted: seq<int>)
    requires forall i, j :: 0 <= i < j < |keys| ==> keys[i] != keys[j]
    ensures Ascending(sorted)
    ensures forall k :: k in sorted <==> k in keys
  {
    sorted := [];
    for i := 0 to |keys|
      invariant Ascending(sorted)
      invariant forall k :: k in sorted <==> k in keys[..i]
    {
      InsertedKeeps(sorted, keys[i]);
      sorted := Sorting.Inserted(sorted, keys[i], SMALLER);
    }
  }

  // --- Conservation ---------------------------------------------------------------------------------

  function BoxCount(ds: seq<Defect>): nat {
    if ds == [] then 0 else BoxCount(ds[..|ds| - 1]) + if ds[|ds| - 1].bbox.Some? then 1 else 0
  }

  lemma BoxedStep(ds: seq<Defect>, d: Defect, k: int)
    ensures |BoxedOn(ds + [d], k)| == |BoxedOn(ds, k)| + if d.bbox.Some? && ShotOf(d) == k then 1 else 0
  {
    assert (ds + [d])[..|ds|] == ds;
  }

  /** How many boxes the shots with these indices have. */
  function DrawnOn(ds: seq<Defect>, keys: seq<int>): nat {
    if keys == [] then 0 else DrawnOn(ds, keys[..|keys| - 1]) + |BoxedOn(ds, keys[|keys| - 1])|
  }

  /** One more defect is drawn on one shot, if its shot is among them. */
  lemma {:induction false} DrawnOnce(ds: seq<Defect>, d: Defect, keys: seq<int>)
    requires Ascending(keys)
    ensures DrawnOn(ds + [d], keys) == DrawnOn(ds, keys) + if d.bbox.Some? && ShotOf(d) in keys then 1 else 0
    decreases |keys|
  {
    if keys == [] {
    } else {
      var n := |keys| - 1;
      DrawnOnce(ds, d, keys[..n]);
      BoxedStep(ds, d, keys[n]);
      assert keys == keys[..n] + [keys[n]];
      assert keys[n] !in keys[..n];
    }
  }

  lemma {:induction false} DrawnOnNothing(keys: seq<int>)
    ensures DrawnOn([], keys) == 0
  {
    if keys == [] {
    } else {
      DrawnOnNothing(keys[..|keys| - 1]);
    }
  }

  /** Every box is drawn on exactly one shot. */
  lemma {:induction false} EveryBoxIsDrawnOnce(ds: seq<Defect>, keys: seq<int>)
    requires Ascending(keys) && forall d :: d in ds && d.bbox.Some? ==> ShotOf(d) in keys
    ensures DrawnOn(ds, keys) == BoxCount(ds)
    decreases |ds|
  {
    if ds == [] {
      DrawnOnNothing(keys);
    } else {
      var n := |ds| - 1;
      assert ds == ds[..n] + [ds[n]];
      EveryBoxIsDrawnOnce(ds[..n], keys);
      DrawnOnce(ds[..n], ds[n], keys);
    }
  }

  /** The shots in ascending order, each with exactly its boxes; raises exactly when a box points before the first shot. */
  method BuildDefectCoordinates(ds: seq<Defect>, urls: seq<string>) returns (r: Overlay)
    ensures r.IndexError? <==> exists d :: d in ds && d.bbox.Some? && !Addressable(ShotOf(d), urls)
    ensures r.Drawn? ==>
              && Ascending(Indices(r.shots))
              && (forall k :: k in Indices(r.shots) <==> HasBox(ds, k))
              && (forall i :: 0 <= i < |r.shots| ==> OnShot(ds, urls, r.shots[i]))
              && (forall i :: 0 <= i < |r.shots| ==>
                    var k := r.shots[i].index;
                    && -|urls| <= k
                    && (0 <= k < |urls| ==> r.shots[i].url == Some(urls[k]))
                    && (k < 0 ==> r.shots[i].url == Some(urls[|urls| + k]))
                    && (k >= |urls| ==> r.shots[i].url == None))
              && DrawnOn(ds, Indices(r.shots)) == BoxCount(ds)
  {
    var ok, grouped, order := Group(ds, urls);
    if !ok {
      return IndexError;
    }
    var keys := SortedKeys(order);
    var shots := [];
    for i := 0 to |keys|
      invariant |shots| == i && forall j :: 0 <= j < i ==> keys[j] in grouped && shots[j] == grouped[keys[j]]
    {
      assert keys[i] in keys;
      shots := shots + [grouped[keys[i]]];
    }
    r := Drawn(shots);
    assert forall j :: 0 <= j < |keys| ==> Indices(shots)[j] == keys[j];
    assert Indices(shots) == keys;
    EveryBoxIsDrawnOnce(ds, keys);
  }

  function Indices(shots: seq<Shot>): seq<int> {
    seq(|shots|, i requires 0 <= i < |shots| => shots[i].index)
  }

  predicate OnShot(ds: seq<Defect>, urls: seq<string>, shot: Shot) {
    Addressable(shot.index, urls) && shot == Shot(shot.index, UrlOf(shot.index, urls), BoxedOn(ds, shot.index))
  }
}
