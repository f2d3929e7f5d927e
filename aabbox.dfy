/** `AABBox`, the axis-aligned bounding box value type. C# copies a struct on
    every assignment, so each mutating member becomes a function from the old
    value to the new one. */
module BoundingBoxes {
  import opened Vectors
  import opened NumTools

  datatype AABBox = AABBox(Min: Vector2, Max: Vector2)
  {
    /** `Min <= Max` in both coordinates. */
    predicate WellFormed() {
      Min.X <= Max.X && Min.Y <= Max.Y
    }

    /** Closed containment test. */
    predicate IsContainedIn(point: Vector2) {
      point.X >= Min.X && point.Y >= Min.Y && point.X <= Max.X && point.Y <= Max.Y
    }

    /** `other` lies entirely inside this box. */
    predicate Encloses(other: AABBox) {
      IsContainedIn(other.Min) && IsContainedIn(other.Max)
    }

    /** Grow the box so that it takes in `point`. */
    function AddInternalPoint(point: Vector2): (r: AABBox)
      ensures r.IsContainedIn(point)
      ensures r.WellFormed()
      ensures forall q :: IsContainedIn(q) ==> r.IsContainedIn(q)
    {
      AABBox(Vector2(MinReal(Min.X, point.X), MinReal(Min.Y, point.Y)),
             Vector2(MaxReal(Max.X, point.X), MaxReal(Max.Y, point.Y)))
    }

    function AddBox(other: AABBox): (r: AABBox)
      ensures r.Encloses(other)
      ensures r.WellFormed()
      ensures forall q :: IsContainedIn(q) ==> r.IsContainedIn(q)
    {
      AddInternalPoint(other.Min).AddInternalPoint(other.Max)
    }

    function Translate(diff: Vector2): (r: AABBox)
      ensures r.WellFormed() <==> WellFormed()
      ensures forall p :: IsContainedIn(p) <==> r.IsContainedIn(p.Add(diff))
    {
      AABBox(Min.Add(diff), Max.Add(diff))
    }

    /** As written: only the two stored corners of each box are tested. */
    predicate Overlaps(other: AABBox) {
      IsContainedIn(other.Min) || IsContainedIn(other.Max) || other.IsContainedIn(Min) || other.IsContainedIn(Max)
    }

    /** What an overlap test is meant to decide: the two closed boxes share a point. */
    predicate Intersects(other: AABBox) {
      MaxReal(Min.X, other.Min.X) <= MinReal(Max.X, other.Max.X) &&
      MaxReal(Min.Y, other.Min.Y) <= MinReal(Max.Y, other.Max.Y)
    }
  }

  /** The box built by `new AABBox()`: both corners at the origin. */
  const Default := AABBox(Zero, Zero)

  /** The `AABBox(min, max)` constructor: starts from the degenerate box at
      `min` and adds both arguments, so their order does not matter. */
  function FromCorners(min: Vector2, max: Vector2): (r: AABBox)
    ensures r.Min == Vector2(MinReal(min.X, max.X), MinReal(min.Y, max.Y))
    ensures r.Max == Vector2(MaxReal(min.X, max.X), MaxReal(min.Y, max.Y))
    ensures r.WellFormed() && r.IsContainedIn(min) && r.IsContainedIn(max)
  {
    AABBox(min, min).AddInternalPoint(min).AddInternalPoint(max)
  }

  lemma FromCornersSymmetric(a: Vector2, b: Vector2)
    ensures FromCorners(a, b) == FromCorners(b, a)
  {
  }

  /** The box after `AddInternalPoint` is the smallest one holding the old box
      and the point. */
  lemma AddInternalPointSmallest(box: AABBox, point: Vector2, bound: AABBox)
    requires bound.Encloses(box) && bound.IsContainedIn(point)
    ensures bound.Encloses(box.AddInternalPoint(point))
  {
  }

  /** `BuildBox(points)`: the default box grown by every point in turn. */
  method BuildBox(points: seq<Vector2>) returns (result: AABBox)
    ensures result.WellFormed() && result.IsContainedIn(Zero)
    ensures forall i :: 0 <= i < |points| ==> result.IsContainedIn(points[i])
    ensures result.Min.X == 0.0 || exists i :: 0 <= i < |points| && result.Min.X == points[i].X
    ensures result.Min.Y == 0.0 || exists i :: 0 <= i < |points| && result.Min.Y == points[i].Y
    ensures result.Max.X == 0.0 || exists i :: 0 <= i < |points| && result.Max.X == points[i].X
    ensures result.Max.Y == 0.0 || exists i :: 0 <= i < |points| && result.Max.Y == points[i].Y
  {
    result := Default;
    for k := 0 to |points|
      invariant result.WellFormed() && result.IsContainedIn(Zero)
      invariant forall i :: 0 <= i < k ==> result.IsContainedIn(points[i])
      invariant result.Min.X == 0.0 || exists i :: 0 <= i < k && result.Min.X == points[i].X
      invariant result.Min.Y == 0.0 || exists i :: 0 <= i < k && result.Min.Y == points[i].Y
      invariant result.Max.X == 0.0 || exists i :: 0 <= i < k && result.Max.X == points[i].X
      invariant result.Max.Y == 0.0 || exists i :: 0 <= i < k && result.Max.Y == points[i].Y
    {
      result := result.AddInternalPoint(points[k]);
    }
  }

  lemma OverlapsSymmetric(a: AABBox, b: AABBox)
    ensures a.Overlaps(b) == b.Overlaps(a)
  {
  }

  /** Whenever `Overlaps` holds the boxes do share a point (the test never
      reports a false overlap). */
  lemma OverlapsSound(a: AABBox, b: AABBox)
    requires a.WellFormed() && b.WellFormed() && a.Overlaps(b)
    ensures a.Intersects(b)
  {
  }

  /** Two crossing boxes share the square [1,2]x[0,1], yet neither holds a
      stored corner of the other, so `Overlaps` answers false. */
  lemma OverlapsMissesCrossing()
    ensures var a := AABBox(Vector2(0.0, 0.0), Vector2(2.0, 2.0));
            var b := AABBox(Vector2(1.0, -1.0), Vector2(3.0, 1.0));
            a.WellFormed() && b.WellFormed() && a.Intersects(b) && !a.Overlaps(b)
  {
  }

  /** `Intersects` is exactly "some point lies in both boxes". */
  lemma IntersectsIffCommonPoint(a: AABBox, b: AABBox)
    requires a.WellFormed() && b.WellFormed()
    ensures a.Intersects(b) <==> exists p :: a.IsContainedIn(p) && b.IsContainedIn(p)
  {
    if a.Intersects(b) {
      var p := Vector2(MaxReal(a.Min.X, b.Min.X), MaxReal(a.Min.Y, b.Min.Y));
      assert a.IsContainedIn(p) && b.IsContainedIn(p);
    }
  }
}
